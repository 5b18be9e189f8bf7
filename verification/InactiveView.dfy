/**
  The derived "inactive" view shared by the PPP and the hotspot stream of
  workflows/inactive_stream.go: enabled accounts minus accounts with a live session.

  The Go code keeps two hand-copied state machines, one per service.  Their
  transitions differ only in the account record and in whether an address is tracked,
  so they are described once here, generic in the account detail D.  The two classes
  of InactiveStream.dfy are proved to follow these functions.
 */
module InactiveView {

  datatype Account<D> = Account(id: string, name: string, disabled: bool, detail: D)

  datatype Action = Added | Changed | Removed

  /** One event handed to the listener. `shown` is what the event displays. */
  datatype Event<P> = Event(name: string, shown: P, action: Action)

  /** One row of a follow stream. Absent fields of a row read as "". */
  datatype Input<D> =
    | AccountRow(dead: bool, row: Account<D>)
    | SessionRow(dead: bool, id: string, name: string, address: string)

  datatype State<D> = State(
    configured: map<string, Account<D>>,
    configuredIds: map<string, string>,
    activeIds: map<string, string>,
    activeCounts: map<string, nat>,
    addresses: map<string, string>,
    inactive: map<string, Account<D>>)

  function Initial<D>(): State<D> {
    State(map[], map[], map[], map[], map[], map[])
  }

  /** Reading a missing key of a Go map gives the zero value. */
  function Lookup(m: map<string, string>, k: string): string {
    if k in m then m[k] else ""
  }

  function CountOf(counts: map<string, nat>, name: string): nat {
    if name in counts then counts[name] else 0
  }

  // ---------------------------------------------------------------- transitions

  function Decrement(counts: map<string, nat>, name: string): map<string, nat> {
    if CountOf(counts, name) <= 1 then counts - {name} else counts[name := counts[name] - 1]
  }

  function Increment(counts: map<string, nat>, name: string): map<string, nat> {
    counts[name := CountOf(counts, name) + 1]
  }

  function SetActive<D>(s: State<D>, id: string, name: string): State<D> {
    if id == "" then
      if CountOf(s.activeCounts, name) == 0 then s.(activeCounts := s.activeCounts[name := 1]) else s
    else
      var previous := Lookup(s.activeIds, id);
      if previous == name then s
      else
        var counts := if previous != "" then Decrement(s.activeCounts, previous) else s.activeCounts;
        s.(activeIds := s.activeIds[id := name], activeCounts := Increment(counts, name))
  }

  function RemoveActive<D>(s: State<D>, id: string, name: string): State<D> {
    s.(activeIds := if id != "" then s.activeIds - {id} else s.activeIds,
       activeCounts := if name != "" then Decrement(s.activeCounts, name) else s.activeCounts)
  }

  function SessionStep<D>(s: State<D>, dead: bool, id: string, name: string, address: string): State<D> {
    if dead then
      RemoveActive(s, id, if name == "" then Lookup(s.activeIds, id) else name)
    else if name != "" then
      SetActive(s, id, name).(addresses := if address != "" then s.addresses[name := address] else s.addresses)
    else s
  }

  function DropAccount<D>(configured: map<string, Account<D>>, ids: map<string, string>, row: Account<D>):
      map<string, Account<D>> {
    var name := if row.name == "" then Lookup(ids, row.id) else row.name;
    if name != "" then configured - {name} else configured
  }

  function StoreAccount<D>(configured: map<string, Account<D>>, ids: map<string, string>, row: Account<D>):
      map<string, Account<D>> {
    var previous := Lookup(ids, row.id);
    var renamed := row.id != "" && previous != "" && previous != row.name;
    var kept := if renamed then configured - {previous} else configured;
    if row.disabled then kept - {row.name} else kept[row.name := row]
  }

  function AccountStep<D>(s: State<D>, dead: bool, row: Account<D>): State<D> {
    if dead then
      s.(configured := DropAccount(s.configured, s.configuredIds, row),
         configuredIds := if row.id != "" then s.configuredIds - {row.id} else s.configuredIds)
    else if row.name != "" then
      s.(configured := StoreAccount(s.configured, s.configuredIds, row),
         configuredIds := if row.id != "" then s.configuredIds[row.id := row.name] else s.configuredIds)
    else s
  }

  function Offline<D>(configured: map<string, Account<D>>, counts: map<string, nat>): map<string, Account<D>> {
    map name | name in configured && CountOf(counts, name) == 0 :: configured[name]
  }

  /** One handler call: update the maps, then recompute the view. */
  function Step<D>(s: State<D>, input: Input<D>): State<D> {
    var t := match input
      case AccountRow(dead, row) => AccountStep(s, dead, row)
      case SessionRow(dead, id, name, address) => SessionStep(s, dead, id, name, address);
    t.(inactive := Offline(t.configured, t.activeCounts))
  }

  function Run<D>(inputs: seq<Input<D>>): State<D> {
    if inputs == [] then Initial() else Step(Run(inputs[..|inputs| - 1]), inputs[|inputs| - 1])
  }

  // ---------------------------------------------------------------- the router's side

  /** The two router tables the streams follow, keyed by row id. */
  datatype Router<D> = Router(accounts: map<string, Account<D>>, sessions: map<string, string>)

  function Feed<D>(r: Router<D>, input: Input<D>): Router<D> {
    match input
    case AccountRow(dead, row) =>
      if dead then r.(accounts := r.accounts - {row.id})
      else if row.name != "" then r.(accounts := r.accounts[row.id := row])
      else r
    case SessionRow(dead, id, name, _) =>
      if dead then r.(sessions := r.sessions - {id})
      else if name != "" then r.(sessions := r.sessions[id := name])
      else r
  }

  function RouterAfter<D>(inputs: seq<Input<D>>): Router<D> {
    if inputs == [] then Router(map[], map[])
    else Feed(RouterAfter(inputs[..|inputs| - 1]), inputs[|inputs| - 1])
  }

  /**
    What the router promises about the next row: it carries its id; a live account does
    not take the name of another account; a dead row names nobody, the account or user
    recorded for its id, or (for an id never seen) a name nobody uses.
   */
  ghost predicate Expected<D>(r: Router<D>, input: Input<D>) {
    match input
    case AccountRow(dead, row) =>
      && row.id != ""
      && (!dead ==> forall other :: other in r.accounts && other != row.id ==> r.accounts[other].name != row.name)
      && (dead && row.name != "" ==>
            if row.id in r.accounts then row.name == r.accounts[row.id].name
            else forall other :: other in r.accounts ==> r.accounts[other].name != row.name)
    case SessionRow(dead, id, name, _) =>
      && id != ""
      && (dead && name != "" ==>
            if id in r.sessions then name == r.sessions[id] else name !in r.sessions.Values)
  }

  ghost predicate WellFormedFeed<D>(inputs: seq<Input<D>>) {
    inputs == [] ||
    (var before := inputs[..|inputs| - 1];
     WellFormedFeed(before) && Expected(RouterAfter(before), inputs[|inputs| - 1]))
  }

  ghost predicate UniqueNames<D>(accounts: map<string, Account<D>>) {
    forall i, j :: i in accounts && j in accounts && i != j ==> accounts[i].name != accounts[j].name
  }

  /** The view computed from scratch out of the router's tables. */
  ghost function Recompute<D>(r: Router<D>): map<string, Account<D>>
    requires UniqueNames(r.accounts)
  {
    map id | id in r.accounts && !r.accounts[id].disabled && r.accounts[id].name !in r.sessions.Values
      :: r.accounts[id].name := r.accounts[id]
  }

  /** Ids of the live sessions of one user. */
  ghost function Holders(sessions: map<string, string>, name: string): set<string> {
    set id | id in sessions && sessions[id] == name
  }

  /** A table of accounts, keyed by id, whose names are present and unique. */
  ghost predicate Table<D>(accounts: map<string, Account<D>>) {
    && UniqueNames(accounts)
    && (forall id :: id in accounts ==> id != "" && accounts[id].id == id && accounts[id].name != "")
  }

  /** `configured` holds exactly the enabled rows of the table, by name. */
  ghost predicate EnabledRows<D>(configured: map<string, Account<D>>, accounts: map<string, Account<D>>) {
    && (forall id :: id in accounts && !accounts[id].disabled ==>
          accounts[id].name in configured && configured[accounts[id].name] == accounts[id])
    && (forall n :: n in configured ==>
          var row := configured[n];
          row.name == n && !row.disabled && row.id in accounts && accounts[row.id] == row)
  }

  function NamesById<D>(accounts: map<string, Account<D>>): map<string, string> {
    map id | id in accounts :: accounts[id].name
  }

  ghost predicate TracksAccounts<D>(configured: map<string, Account<D>>, ids: map<string, string>,
                                    accounts: map<string, Account<D>>) {
    && Table(accounts)
    && ids == NamesById(accounts)
    && EnabledRows(configured, accounts)
  }

  /** `counts[n]` is exactly the number of live sessions of n. */
  ghost predicate Counts(counts: map<string, nat>, sessions: map<string, string>) {
    forall n :: CountOf(counts, n) == |Holders(sessions, n)|
  }

  ghost predicate TracksSessions(ids: map<string, string>, counts: map<string, nat>, sessions: map<string, string>) {
    && ids == sessions
    && (forall id :: id in sessions ==> id != "" && sessions[id] != "")
    && Counts(counts, sessions)
  }

  ghost predicate Tracks<D>(s: State<D>, r: Router<D>) {
    && TracksAccounts(s.configured, s.configuredIds, r.accounts)
    && TracksSessions(s.activeIds, s.activeCounts, r.sessions)
    && s.inactive == Offline(s.configured, s.activeCounts)
  }

  // ---------------------------------------------------------------- agreement with the router

  lemma HoldersWithout(sessions: map<string, string>, id: string, n: string)
    ensures Holders(sessions - {id}, n) == Holders(sessions, n) - {id}
    ensures |Holders(sessions - {id}, n)| ==
            |Holders(sessions, n)| - (if id in sessions && sessions[id] == n then 1 else 0)
  {
    assert Holders(sessions - {id}, n) == Holders(sessions, n) - {id};
  }

  lemma HoldersWith(sessions: map<string, string>, id: string, name: string, n: string)
    requires id !in sessions
    ensures |Holders(sessions[id := name], n)| == |Holders(sessions, n)| + (if name == n then 1 else 0)
  {
    var grown := Holders(sessions[id := name], n);
    assert grown == if name == n then Holders(sessions, n) + {id} else Holders(sessions, n);
  }

  lemma DecrementCounts(counts: map<string, nat>, sessions: map<string, string>, id: string, name: string)
    requires Counts(counts, sessions)
    requires if id in sessions then name == sessions[id] else Holders(sessions, name) == {}
    ensures Counts(Decrement(counts, name), sessions - {id})
  {
    forall n ensures CountOf(Decrement(counts, name), n) == |Holders(sessions - {id}, n)| {
      HoldersWithout(sessions, id, n);
      assert CountOf(counts, n) == |Holders(sessions, n)|;
    }
  }

  lemma IncrementCounts(counts: map<string, nat>, sessions: map<string, string>, id: string, name: string)
    requires Counts(counts, sessions) && id !in sessions
    ensures Counts(Increment(counts, name), sessions[id := name])
  {
    forall n ensures CountOf(Increment(counts, name), n) == |Holders(sessions[id := name], n)| {
      HoldersWith(sessions, id, name, n);
      assert CountOf(counts, n) == |Holders(sessions, n)|;
    }
  }

  lemma RemoveActiveTracks<D>(s: State<D>, sessions: map<string, string>, id: string, name: string)
    requires TracksSessions(s.activeIds, s.activeCounts, sessions) && id != ""
    requires if id in sessions then name == sessions[id] else Holders(sessions, name) == {}
    ensures var t := RemoveActive(s, id, name); TracksSessions(t.activeIds, t.activeCounts, sessions - {id})
  {
    if name != "" {
      DecrementCounts(s.activeCounts, sessions, id, name);
    } else {
      assert sessions - {id} == sessions;
    }
  }

  lemma SetActiveTracks<D>(s: State<D>, sessions: map<string, string>, id: string, name: string)
    requires TracksSessions(s.activeIds, s.activeCounts, sessions) && id != "" && name != ""
    ensures var t := SetActive(s, id, name); TracksSessions(t.activeIds, t.activeCounts, sessions[id := name])
    ensures CountOf(SetActive(s, id, name).activeCounts, name) > 0
  {
    var t, after := SetActive(s, id, name), sessions[id := name];
    if Lookup(s.activeIds, id) == name {
      assert after == sessions;
    } else {
      var rest := sessions - {id};
      assert rest[id := name] == after;
      var counts := s.activeCounts;
      if id in sessions {
        DecrementCounts(counts, sessions, id, sessions[id]);
        counts := Decrement(counts, sessions[id]);
      } else {
        assert rest == sessions;
      }
      IncrementCounts(counts, rest, id, name);
    }
    assert id in Holders(after, name);
    assert CountOf(t.activeCounts, name) == |Holders(after, name)|;
  }

  lemma SessionStepTracks<D>(s: State<D>, r: Router<D>, input: Input<D>)
    requires TracksSessions(s.activeIds, s.activeCounts, r.sessions) && Expected(r, input) && input.SessionRow?
    ensures var t := Step(s, input); TracksSessions(t.activeIds, t.activeCounts, Feed(r, input).sessions)
  {
    var SessionRow(dead, id, name, address) := input;
    if dead {
      var gone := if name == "" then Lookup(s.activeIds, id) else name;
      if id !in r.sessions {
        assert Holders(r.sessions, gone) == {};
      }
      RemoveActiveTracks(s, r.sessions, id, gone);
    } else if name != "" {
      SetActiveTracks(s, r.sessions, id, name);
    }
  }

  lemma EnabledWithout<D>(configured: map<string, Account<D>>, accounts: map<string, Account<D>>, id: string)
    requires Table(accounts) && EnabledRows(configured, accounts) && id in accounts
    ensures Table(accounts - {id})
    ensures EnabledRows(configured - {accounts[id].name}, accounts - {id})
    ensures NamesById(accounts - {id}) == NamesById(accounts) - {id}
  {
  }

  lemma TableWith<D>(accounts: map<string, Account<D>>, row: Account<D>)
    requires Table(accounts)
    requires row.id !in accounts && row.id != "" && row.name != ""
    requires forall id :: id in accounts ==> accounts[id].name != row.name
    ensures Table(accounts[row.id := row])
    ensures NamesById(accounts[row.id := row]) == NamesById(accounts)[row.id := row.name]
  {
    var grown := accounts[row.id := row];
    forall i, j | i in grown && j in grown && i != j ensures grown[i].name != grown[j].name {
      if i != row.id && j != row.id {
        assert accounts[i].name != accounts[j].name;
      }
    }
  }

  lemma EnabledWith<D>(configured: map<string, Account<D>>, accounts: map<string, Account<D>>, row: Account<D>)
    requires EnabledRows(configured, accounts)
    requires row.id !in accounts
    requires forall id :: id in accounts ==> accounts[id].name != row.name
    ensures row.name !in configured
    ensures row.disabled ==> EnabledRows(configured, accounts[row.id := row])
    ensures !row.disabled ==> EnabledRows(configured[row.name := row], accounts[row.id := row])
  {
  }

  lemma DeadAccountTracks<D>(configured: map<string, Account<D>>, accounts: map<string, Account<D>>, row: Account<D>)
    requires TracksAccounts(configured, NamesById(accounts), accounts)
    requires Expected(Router(accounts, map[]), AccountRow(true, row))
    ensures TracksAccounts(DropAccount(configured, NamesById(accounts), row), NamesById(accounts) - {row.id},
            accounts - {row.id})
  {
    if row.id in accounts {
      EnabledWithout(configured, accounts, row.id);
    } else {
      assert accounts - {row.id} == accounts;
      assert configured - {row.name} == configured;
    }
  }

  /** A live row first drops the entry its id had, then stores the new one. */
  lemma StoreReplaces<D>(configured: map<string, Account<D>>, ids: map<string, string>, row: Account<D>)
    requires row.id != ""
    requires row.id in ids ==> ids[row.id] != ""
    requires row.name in configured ==> row.id in ids && ids[row.id] == row.name
    ensures var kept := if row.id in ids then configured - {ids[row.id]} else configured;
      StoreAccount(configured, ids, row) == if row.disabled then kept else kept[row.name := row]
  {
  }

  lemma NewAccountTracks<D>(configured: map<string, Account<D>>, accounts: map<string, Account<D>>, row: Account<D>)
    requires TracksAccounts(configured, NamesById(accounts), accounts)
    requires row.id !in accounts && row.id != "" && row.name != ""
    requires forall id :: id in accounts ==> accounts[id].name != row.name
    ensures row.name !in configured
    ensures TracksAccounts(if row.disabled then configured else configured[row.name := row],
                           NamesById(accounts)[row.id := row.name], accounts[row.id := row])
  {
    TableWith(accounts, row);
    EnabledWith(configured, accounts, row);
  }

  lemma NamesReplaced<D>(accounts: map<string, Account<D>>, row: Account<D>)
    ensures NamesById(accounts - {row.id})[row.id := row.name] == NamesById(accounts)[row.id := row.name]
    ensures (accounts - {row.id})[row.id := row] == accounts[row.id := row]
  {
  }

  lemma LiveAccountTracks<D>(configured: map<string, Account<D>>, accounts: map<string, Account<D>>, row: Account<D>)
    requires TracksAccounts(configured, NamesById(accounts), accounts)
    requires row.id != "" && row.name != ""
    requires forall other :: other in accounts && other != row.id ==> accounts[other].name != row.name
    ensures var grown := accounts[row.id := row];
      TracksAccounts(StoreAccount(configured, NamesById(accounts), row), NamesById(accounts)[row.id := row.name], grown)
  {
    var rest, kept := accounts - {row.id}, configured;
    if row.id in accounts {
      EnabledWithout(configured, accounts, row.id);
      kept := configured - {accounts[row.id].name};
    } else {
      assert rest == accounts;
    }
    NewAccountTracks(kept, rest, row);
    NamesReplaced(accounts, row);
    assert StoreAccount(configured, NamesById(accounts), row)
        == if row.disabled then kept else kept[row.name := row] by {
      StoreReplaces(configured, NamesById(accounts), row);
    }
  }

  lemma AccountStepTracks<D>(s: State<D>, r: Router<D>, input: Input<D>)
    requires TracksAccounts(s.configured, s.configuredIds, r.accounts) && Expected(r, input) && input.AccountRow?
    ensures var t := Step(s, input); TracksAccounts(t.configured, t.configuredIds, Feed(r, input).accounts)
  {
    if input.dead {
      DeadAccountTracks(s.configured, r.accounts, input.row);
    } else if input.row.name != "" {
      LiveAccountTracks(s.configured, r.accounts, input.row);
    }
  }

  lemma StepTracks<D>(s: State<D>, r: Router<D>, input: Input<D>)
    requires Tracks(s, r) && Expected(r, input)
    ensures Tracks(Step(s, input), Feed(r, input))
  {
    if input.SessionRow? {
      SessionStepTracks(s, r, input);
    } else {
      AccountStepTracks(s, r, input);
    }
  }

  lemma {:induction false} RunTracks<D>(inputs: seq<Input<D>>)
    requires WellFormedFeed(inputs)
    ensures Tracks(Run(inputs), RouterAfter(inputs))
  {
    if inputs == [] {
      forall n ensures |Holders(map[], n)| == 0 { assert Holders(map[], n) == {}; }
    } else {
      var before := inputs[..|inputs| - 1];
      RunTracks(before);
      StepTracks(Run(before), RouterAfter(before), inputs[|inputs| - 1]);
    }
  }

  lemma UnusedHasNoSession(counts: map<string, nat>, sessions: map<string, string>, n: string)
    requires Counts(counts, sessions)
    ensures CountOf(counts, n) == 0 <==> n !in sessions.Values
  {
    if n in sessions.Values {
      var id :| id in sessions && sessions[id] == n;
      assert id in Holders(sessions, n);
    } else {
      assert Holders(sessions, n) == {};
    }
  }

  lemma OfflineIsRecomputed<D>(configured: map<string, Account<D>>, counts: map<string, nat>, r: Router<D>)
    requires Table(r.accounts) && EnabledRows(configured, r.accounts) && Counts(counts, r.sessions)
    ensures Offline(configured, counts) == Recompute(r)
  {
    var view, scratch := Offline(configured, counts), Recompute(r);
    forall n ensures n in view <==> n in scratch
             ensures n in view && n in scratch ==> view[n] == scratch[n] {
      UnusedHasNoSession(counts, r.sessions, n);
    }
  }

  /** After every well-formed feed the incremental view equals the view computed from scratch. */
  lemma InactiveIsRecomputed<D>(inputs: seq<Input<D>>)
    requires WellFormedFeed(inputs)
    ensures UniqueNames(RouterAfter(inputs).accounts)
    ensures Run(inputs).inactive == Recompute(RouterAfter(inputs))
  {
    RunTracks(inputs);
    OfflineIsRecomputed(Run(inputs).configured, Run(inputs).activeCounts, RouterAfter(inputs));
  }

  // ---------------------------------------------------------------- the emitted events

  /** Every row is stored under its own name. */
  ghost predicate Keyed<D>(m: map<string, Account<D>>) {
    forall n :: n in m ==> m[n].name == n
  }

  ghost predicate Explains<D>(prev: map<string, Account<D>>, next: map<string, Account<D>>, e: Event<Account<D>>) {
    match e.action
    case Added => e.name !in prev && e.name in next && e.shown == next[e.name]
    case Changed => e.name in prev && e.name in next && prev[e.name] != next[e.name] && e.shown == next[e.name]
    case Removed => e.name in prev && e.name !in next && e.shown == prev[e.name]
  }

  ghost predicate Differs<D>(prev: map<string, Account<D>>, next: map<string, Account<D>>, n: string) {
    (n in prev <==> n !in next) || (n in prev && n in next && prev[n] != next[n])
  }

  ghost predicate Mentions<P(!new)>(batch: seq<Event<P>>, n: string) {
    exists i :: 0 <= i < |batch| && batch[i].name == n
  }

  /**
    A batch reconcileLocked may return for a view going from prev to next: exactly one
    event per name whose entry differs, the added ones last; the order is otherwise
    free, because Go iterates over maps in random order.
   */
  ghost predicate IsBatch<D(!new)>(prev: map<string, Account<D>>, next: map<string, Account<D>>,
                                    batch: seq<Event<Account<D>>>) {
    && (forall i :: 0 <= i < |batch| ==> Explains(prev, next, batch[i]))
    && (forall i, j :: 0 <= i < j < |batch| ==> batch[i].name != batch[j].name)
    && (forall i, j :: 0 <= i < j < |batch| && batch[i].action.Added? ==> batch[j].action.Added?)
    && (forall n :: Differs(prev, next, n) ==> Mentions(batch, n))
  }

  function Apply<P>(view: map<string, P>, e: Event<P>): map<string, P> {
    if e.action.Removed? then view - {e.name} else view[e.name := e.shown]
  }

  function Replay<P>(view: map<string, P>, events: seq<Event<P>>): map<string, P> {
    if events == [] then view else Apply(Replay(view, events[..|events| - 1]), events[|events| - 1])
  }

  /** The life of one name: (added changed* removed)*, possibly cut short. None = a forbidden order. */
  datatype Life = Up | Down | Broken

  function Live(l: Life, a: Action): Life {
    match (l, a)
    case (Down, Added) => Up
    case (Up, Changed) => Up
    case (Up, Removed) => Down
    case _ => Broken
  }

  function LifeOf<P>(events: seq<Event<P>>, n: string): Life {
    if events == [] then Down
    else
      var before, e := events[..|events| - 1], events[|events| - 1];
      if e.name == n then Live(LifeOf(before, n), e.action) else LifeOf(before, n)
  }

  lemma {:induction false} ReplayAppend<P>(view: map<string, P>, a: seq<Event<P>>, b: seq<Event<P>>)
    ensures Replay(view, a + b) == Replay(Replay(view, a), b)
  {
    if b == [] {
      assert a + b == a;
    } else {
      var ab := a + b;
      assert ab[..|ab| - 1] == a + b[..|b| - 1];
      ReplayAppend(view, a, b[..|b| - 1]);
    }
  }

  lemma {:induction false} ReplayElsewhere<P(!new)>(view: map<string, P>, batch: seq<Event<P>>, n: string)
    requires !Mentions(batch, n)
    ensures n in Replay(view, batch) <==> n in view
    ensures n in view ==> Replay(view, batch)[n] == view[n]
  {
    if batch != [] {
      var before := batch[..|batch| - 1];
      assert batch[|batch| - 1].name != n;
      assert forall i :: 0 <= i < |before| ==> before[i] == batch[i];
      ReplayElsewhere(view, before, n);
    }
  }

  /** With one event per name, replay leaves every mentioned name as its only event says. */
  lemma {:induction false} ReplayOnce<P(!new)>(view: map<string, P>, batch: seq<Event<P>>, k: nat)
    requires k < |batch|
    requires forall i, j :: 0 <= i < j < |batch| ==> batch[i].name != batch[j].name
    ensures var e := batch[k];
      if e.action.Removed? then e.name !in Replay(view, batch)
      else e.name in Replay(view, batch) && Replay(view, batch)[e.name] == e.shown
  {
    if k < |batch| - 1 {
      var before := batch[..|batch| - 1];
      assert before[k] == batch[k];
      ReplayOnce(view, before, k);
    }
  }

  lemma BatchRebuilds<D(!new)>(prev: map<string, Account<D>>, next: map<string, Account<D>>,
                               batch: seq<Event<Account<D>>>)
    requires IsBatch(prev, next, batch)
    ensures Replay(prev, batch) == next
  {
    var after := Replay(prev, batch);
    forall n ensures n in after <==> n in next
             ensures n in after && n in next ==> after[n] == next[n] {
      if Mentions(batch, n) {
        var k :| 0 <= k < |batch| && batch[k].name == n;
        assert Explains(prev, next, batch[k]);
        ReplayOnce(prev, batch, k);
      } else {
        assert !Differs(prev, next, n);
        ReplayElsewhere(prev, batch, n);
      }
    }
  }

  /** The batches of a run, one per handler call. */
  ghost predicate IsEmission<D(!new)>(inputs: seq<Input<D>>, batches: seq<seq<Event<Account<D>>>>) {
    && |batches| == |inputs|
    && forall k :: 0 <= k < |inputs| ==>
         IsBatch(Run(inputs[..k]).inactive, Run(inputs[..k + 1]).inactive, batches[k])
  }

  function Flatten<E>(batches: seq<seq<E>>): seq<E> {
    if batches == [] then [] else Flatten(batches[..|batches| - 1]) + batches[|batches| - 1]
  }

  lemma EmissionPrefix<D(!new)>(inputs: seq<Input<D>>, batches: seq<seq<Event<Account<D>>>>)
    requires IsEmission(inputs, batches) && inputs != []
    ensures IsEmission(inputs[..|inputs| - 1], batches[..|batches| - 1])
    ensures IsBatch(Run(inputs[..|inputs| - 1]).inactive, Run(inputs).inactive, batches[|batches| - 1])
  {
    var m := |inputs| - 1;
    forall k | 0 <= k < m
      ensures IsBatch(Run(inputs[..m][..k]).inactive, Run(inputs[..m][..k + 1]).inactive, batches[..m][k])
    {
      assert inputs[..m][..k] == inputs[..k] && inputs[..m][..k + 1] == inputs[..k + 1];
      assert batches[..m][k] == batches[k];
      assert IsBatch(Run(inputs[..k]).inactive, Run(inputs[..k + 1]).inactive, batches[k]);
    }
    assert inputs[..m + 1] == inputs;
    assert IsBatch(Run(inputs[..m]).inactive, Run(inputs[..m + 1]).inactive, batches[m]);
  }

  lemma EmissionExtends<D(!new)>(inputs: seq<Input<D>>, batches: seq<seq<Event<Account<D>>>>,
      input: Input<D>, batch: seq<Event<Account<D>>>)
    requires IsEmission(inputs, batches)
    requires IsBatch(Run(inputs).inactive, Step(Run(inputs), input).inactive, batch)
    ensures IsEmission(inputs + [input], batches + [batch])
    ensures Run(inputs + [input]) == Step(Run(inputs), input)
  {
    var all := inputs + [input];
    assert all[..|inputs|] == inputs && all[..|inputs| + 1] == all;
    forall k | 0 <= k < |all|
      ensures IsBatch(Run(all[..k]).inactive, Run(all[..k + 1]).inactive, (batches + [batch])[k]) {
      if k < |inputs| {
        assert all[..k] == inputs[..k] && all[..k + 1] == inputs[..k + 1];
      }
    }
  }

  /** Replaying everything emitted from an empty view gives the current view: any inputs, any map order. */
  lemma {:induction false} ReplayRebuildsView<D(!new)>(inputs: seq<Input<D>>, batches: seq<seq<Event<Account<D>>>>)
    requires IsEmission(inputs, batches)
    ensures Replay(map[], Flatten(batches)) == Run(inputs).inactive
  {
    if inputs != [] {
      var m := |inputs| - 1;
      EmissionPrefix(inputs, batches);
      ReplayRebuildsView(inputs[..m], batches[..m]);
      ReplayAppend(map[], Flatten(batches[..m]), batches[m]);
      BatchRebuilds(Run(inputs[..m]).inactive, Run(inputs).inactive, batches[m]);
    }
  }

  lemma {:induction false} LifeElsewhere<P(!new)>(log: seq<Event<P>>, batch: seq<Event<P>>, n: string)
    requires !Mentions(batch, n)
    ensures LifeOf(log + batch, n) == LifeOf(log, n)
  {
    if batch == [] {
      assert log + batch == log;
    } else {
      var before, all := batch[..|batch| - 1], log + batch;
      assert batch[|batch| - 1].name != n;
      assert forall i :: 0 <= i < |before| ==> before[i] == batch[i];
      assert all[..|all| - 1] == log + before;
      LifeElsewhere(log, before, n);
    }
  }

  lemma {:induction false} LifeOnce<P(!new)>(log: seq<Event<P>>, batch: seq<Event<P>>, k: nat)
    requires k < |batch|
    requires forall i, j :: 0 <= i < j < |batch| ==> batch[i].name != batch[j].name
    ensures LifeOf(log + batch, batch[k].name) == Live(LifeOf(log, batch[k].name), batch[k].action)
  {
    var before, all := batch[..|batch| - 1], log + batch;
    assert all[..|all| - 1] == log + before;
    if k < |batch| - 1 {
      assert before[k] == batch[k];
      LifeOnce(log, before, k);
    } else {
      assert forall i :: 0 <= i < |before| ==> before[i] == batch[i];
      LifeElsewhere(log, before, batch[k].name);
    }
  }

  /** Each name's events form (added changed* removed)*, open exactly while the name is in the view. */
  lemma {:induction false} EveryNameAlternates<D(!new)>(inputs: seq<Input<D>>,
      batches: seq<seq<Event<Account<D>>>>, n: string)
    requires IsEmission(inputs, batches)
    ensures LifeOf(Flatten(batches), n) == if n in Run(inputs).inactive then Up else Down
  {
    if inputs != [] {
      var m := |inputs| - 1;
      EmissionPrefix(inputs, batches);
      EveryNameAlternates(inputs[..m], batches[..m], n);
      var prev, next := Run(inputs[..m]).inactive, Run(inputs).inactive;
      if Mentions(batches[m], n) {
        var k :| 0 <= k < |batches[m]| && batches[m][k].name == n;
        assert Explains(prev, next, batches[m][k]);
        LifeOnce(Flatten(batches[..m]), batches[m], k);
      } else {
        assert !Differs(prev, next, n);
        LifeElsewhere(Flatten(batches[..m]), batches[m], n);
      }
    }
  }

  // ---------------------------------------------------------------- rows without an id

  /**
    Session rows may come without an id. The first such live row takes its user off the
    view, a repeated one changes nothing more, and one dead row puts the user back, with
    everybody else's count as it was.
   */
  lemma AnonymousSession<D>(s: State<D>, name: string, address: string, n: string)
    requires name != "" && CountOf(s.activeCounts, name) == 0
    ensures var up := Step(s, SessionRow(false, "", name, address));
      var again := Step(up, SessionRow(false, "", name, address));
      var down := Step(up, SessionRow(true, "", name, ""));
      && name !in up.inactive && again == up
      && (name in s.configured ==> name in down.inactive && down.inactive[name] == s.configured[name])
      && (n != name ==> CountOf(up.activeCounts, n) == CountOf(down.activeCounts, n) == CountOf(s.activeCounts, n))
      && up.activeIds == down.activeIds == s.activeIds
  {
  }

  /** One that follows a session with an id takes nothing away: the user stays off the view until that session ends. */
  lemma AnonymousBesideSession<D>(s: State<D>, sessions: map<string, string>, id: string, name: string, address: string)
    requires TracksSessions(s.activeIds, s.activeCounts, sessions) && id in sessions && sessions[id] == name
    ensures Step(s, SessionRow(false, "", name, address)).activeCounts == s.activeCounts
    ensures Step(s, SessionRow(false, "", name, address)).activeIds == s.activeIds
  {
    assert id in Holders(sessions, name);
    assert CountOf(s.activeCounts, name) == |Holders(sessions, name)|;
  }

  /** An account row without an id is stored or dropped under its name, and no recorded id moves. */
  lemma AnonymousAccount<D>(s: State<D>, row: Account<D>, n: string)
    requires row.id == "" && row.name != "" && "" !in s.configuredIds
    ensures var live, dead := Step(s, AccountRow(false, row)), Step(s, AccountRow(true, row));
      && live.configuredIds == dead.configuredIds == s.configuredIds
      && row.name !in dead.configured
      && (row.name in live.configured <==> !row.disabled)
      && (!row.disabled ==> live.configured[row.name] == row)
      && (n != row.name ==>
            (n in live.configured <==> n in s.configured) && (n in dead.configured <==> n in s.configured))
      && (n != row.name && n in s.configured ==> live.configured[n] == dead.configured[n] == s.configured[n])
  {
  }

  // ---------------------------------------------------------------- last known addresses

  /** A row that reports a live session of this user at some address. */
  predicate Reports<D>(input: Input<D>, name: string) {
    input.SessionRow? && !input.dead && input.name == name && input.address != ""
  }

  /** The address in the latest of the rows that report one for this user; "" if none does. */
  ghost predicate IsLastAddress<D>(inputs: seq<Input<D>>, name: string, address: string) {
    if forall k :: 0 <= k < |inputs| ==> !Reports(inputs[k], name) then address == ""
    else exists k :: 0 <= k < |inputs| && IsLatestReport(inputs, name, k) && inputs[k].address == address
  }

  ghost predicate IsLatestReport<D>(inputs: seq<Input<D>>, name: string, k: nat)
    requires k < |inputs|
  {
    Reports(inputs[k], name) && forall j :: k < j < |inputs| ==> !Reports(inputs[j], name)
  }

  lemma ReportLater<D>(before: seq<Input<D>>, input: Input<D>, name: string, address: string)
    requires IsLastAddress(before, name, address)
    ensures IsLastAddress(before + [input], name, if Reports(input, name) then input.address else address)
  {
    var inputs, m := before + [input], |before|;
    assert inputs[m] == input;
    if Reports(input, name) {
      assert IsLatestReport(inputs, name, m);
    } else if exists k :: 0 <= k < m && Reports(before[k], name) {
      var k :| 0 <= k < m && IsLatestReport(before, name, k) && before[k].address == address;
      assert inputs[k] == before[k];
      assert IsLatestReport(inputs, name, k);
    } else {
      assert forall k :: 0 <= k < m ==> inputs[k] == before[k];
    }
  }

  /** The machine's address of a user is the one in the rows it was given, on any feed. */
  lemma {:induction false} AddressIsLast<D>(inputs: seq<Input<D>>, name: string)
    requires name != ""
    ensures IsLastAddress(inputs, name, Lookup(Run(inputs).addresses, name))
  {
    if inputs != [] {
      var before, last := inputs[..|inputs| - 1], inputs[|inputs| - 1];
      assert inputs == before + [last];
      AddressIsLast(before, name);
      ReportLater(before, last, name, Lookup(Run(before).addresses, name));
    }
  }

  /** What an event displays: a function of the row and of the last address of its name. */
  function Display<D, P>(e: Event<Account<D>>, addresses: map<string, string>,
                         show: (Account<D>, string) -> P): Event<P> {
    Event(e.name, show(e.shown, Lookup(addresses, e.name)), e.action)
  }

  function DisplayAll<D, P>(batch: seq<Event<Account<D>>>, addresses: map<string, string>,
      show: (Account<D>, string) -> P): (out: seq<Event<P>>)
    ensures |out| == |batch|
    ensures forall i :: 0 <= i < |batch| ==> out[i] == Display(batch[i], addresses, show)
  {
    if batch == [] then []
    else DisplayAll(batch[..|batch| - 1], addresses, show) + [Display(batch[|batch| - 1], addresses, show)]
  }

  /** Everything the listener has received: each batch displays the addresses known at its own step. */
  function Emitted<D, P>(inputs: seq<Input<D>>, batches: seq<seq<Event<Account<D>>>>,
      show: (Account<D>, string) -> P): seq<Event<P>>
    requires |batches| == |inputs|
  {
    if inputs == [] then []
    else
      var m := |inputs| - 1;
      Emitted(inputs[..m], batches[..m], show) + DisplayAll(batches[m], Run(inputs).addresses, show)
  }

  lemma EmittedExtends<D, P>(inputs: seq<Input<D>>, batches: seq<seq<Event<Account<D>>>>,
      input: Input<D>, batch: seq<Event<Account<D>>>, show: (Account<D>, string) -> P)
    requires |batches| == |inputs|
    ensures Emitted(inputs + [input], batches + [batch], show)
            == Emitted(inputs, batches, show) + DisplayAll(batch, Run(inputs + [input]).addresses, show)
  {
    var m := |inputs|;
    assert (inputs + [input])[..m] == inputs && (batches + [batch])[..m] == batches;
  }

  /** A state and a delivery log are those of one run over these rows, with these batches. */
  ghost predicate Explained<D(!new), P>(s: State<D>, delivered: seq<Event<P>>, inputs: seq<Input<D>>,
      batches: seq<seq<Event<Account<D>>>>, show: (Account<D>, string) -> P, listening: bool) {
    && s == Run(inputs)
    && IsEmission(inputs, batches)
    && delivered == if listening then Emitted(inputs, batches, show) else []
  }

  lemma ExplainedStep<D(!new), P>(delivered: seq<Event<P>>, inputs: seq<Input<D>>,
      batches: seq<seq<Event<Account<D>>>>, show: (Account<D>, string) -> P, listening: bool,
      input: Input<D>, batch: seq<Event<Account<D>>>)
    requires Explained(Run(inputs), delivered, inputs, batches, show, listening)
    requires IsBatch(Run(inputs).inactive, Step(Run(inputs), input).inactive, batch)
    ensures var next := Step(Run(inputs), input);
      Explained(next, delivered + if listening then DisplayAll(batch, next.addresses, show) else [],
                inputs + [input], batches + [batch], show, listening)
  {
    EmissionExtends(inputs, batches, input, batch);
    EmittedExtends(inputs, batches, input, batch, show);
  }

  ghost function Displayed<D, P>(view: map<string, Account<D>>, addresses: map<string, string>,
      show: (Account<D>, string) -> P): map<string, P> {
    map n | n in view :: show(view[n], Lookup(addresses, n))
  }

  lemma ApplyDisplayed<D, P>(view: map<string, Account<D>>, e: Event<Account<D>>,
      addresses: map<string, string>, show: (Account<D>, string) -> P)
    ensures Apply(Displayed(view, addresses, show), Display(e, addresses, show))
            == Displayed(Apply(view, e), addresses, show)
  {
  }

  lemma {:induction false} ReplayDisplayed<D, P>(view: map<string, Account<D>>, batch: seq<Event<Account<D>>>,
      addresses: map<string, string>, show: (Account<D>, string) -> P)
    ensures Replay(Displayed(view, addresses, show), DisplayAll(batch, addresses, show))
            == Displayed(Replay(view, batch), addresses, show)
  {
    if batch != [] {
      var before, last := batch[..|batch| - 1], batch[|batch| - 1];
      ReplayDisplayed(view, before, addresses, show);
      ApplyDisplayed(Replay(view, before), last, addresses, show);
      var out := DisplayAll(batch, addresses, show);
      assert out[..|out| - 1] == DisplayAll(before, addresses, show);
    }
  }

  /** A step that learns an address leaves its name with a live session, so no shown address goes stale. */
  lemma AddressesMoveOnlyForActiveNames<D>(s: State<D>, r: Router<D>, input: Input<D>, n: string)
    requires Tracks(s, r) && Expected(r, input)
    requires Lookup(Step(s, input).addresses, n) != Lookup(s.addresses, n)
    ensures n !in Step(s, input).inactive
  {
    SetActiveTracks(s, r.sessions, input.id, input.name);
  }

  lemma MentionsDisplayed<D(!new), P(!new)>(batch: seq<Event<Account<D>>>, addresses: map<string, string>,
      show: (Account<D>, string) -> P, n: string)
    ensures Mentions(DisplayAll(batch, addresses, show), n) <==> Mentions(batch, n)
  {
    var out := DisplayAll(batch, addresses, show);
    if Mentions(batch, n) {
      var k :| 0 <= k < |batch| && batch[k].name == n;
      assert out[k].name == n;
    }
  }

  /** Views that agree on every name a batch does not mention agree after the batch. */
  lemma ReplayForgets<P(!new)>(a: map<string, P>, b: map<string, P>, batch: seq<Event<P>>)
    requires forall i, j :: 0 <= i < j < |batch| ==> batch[i].name != batch[j].name
    requires forall n :: !Mentions(batch, n) ==> (n in a <==> n in b) && (n in a && n in b ==> a[n] == b[n])
    ensures Replay(a, batch) == Replay(b, batch)
  {
    var x, y := Replay(a, batch), Replay(b, batch);
    forall n ensures n in x <==> n in y
             ensures n in x && n in y ==> x[n] == y[n] {
      if Mentions(batch, n) {
        var k :| 0 <= k < |batch| && batch[k].name == n;
        ReplayOnce(a, batch, k);
        ReplayOnce(b, batch, k);
      } else {
        ReplayElsewhere(a, batch, n);
        ReplayElsewhere(b, batch, n);
      }
    }
  }

  /** The batch of one step, shown with the new addresses, turns the old display into the new one. */
  lemma DisplayStep<D(!new), P(!new)>(s: State<D>, r: Router<D>,
      input: Input<D>, batch: seq<Event<Account<D>>>, show: (Account<D>, string) -> P)
    requires Tracks(s, r) && Expected(r, input)
    requires IsBatch(s.inactive, Step(s, input).inactive, batch)
    ensures var t := Step(s, input);
      Replay(Displayed(s.inactive, s.addresses, show), DisplayAll(batch, t.addresses, show))
      == Displayed(t.inactive, t.addresses, show)
  {
    var addresses, next := Step(s, input).addresses, Step(s, input).inactive;
    var shown := DisplayAll(batch, addresses, show);
    var stale, current := Displayed(s.inactive, s.addresses, show), Displayed(s.inactive, addresses, show);
    forall n | !Mentions(shown, n)
      ensures n in stale <==> n in current
      ensures n in stale && n in current ==> stale[n] == current[n] {
      MentionsDisplayed(batch, addresses, show, n);
      assert !Differs(s.inactive, next, n);
      if n in stale && Lookup(addresses, n) != Lookup(s.addresses, n) {
        AddressesMoveOnlyForActiveNames(s, r, input, n);
      }
    }
    ReplayForgets(stale, current, shown);
    ReplayDisplayed(s.inactive, batch, addresses, show);
    BatchRebuilds(s.inactive, next, batch);
  }

  /** Replaying what the listener received shows every inactive account with the last address the machine has. */
  lemma {:induction false} ReplayShowsAddresses<D(!new), P(!new)>(inputs: seq<Input<D>>,
      batches: seq<seq<Event<Account<D>>>>, show: (Account<D>, string) -> P)
    requires WellFormedFeed(inputs) && IsEmission(inputs, batches)
    ensures Replay(map[], Emitted(inputs, batches, show))
            == Displayed(Run(inputs).inactive, Run(inputs).addresses, show)
  {
    if inputs != [] {
      var m := |inputs| - 1;
      var before := inputs[..m];
      EmissionPrefix(inputs, batches);
      ReplayShowsAddresses(before, batches[..m], show);
      RunTracks(before);
      DisplayStep(Run(before), RouterAfter(before), inputs[m], batches[m], show);
      ReplayAppend(map[], Emitted(before, batches[..m], show), DisplayAll(batches[m], Run(inputs).addresses, show));
    }
  }

  /** `known` shows the rows of `truth`, each with the last address the feed reported for its name. */
  ghost predicate ShowsTruth<D, P>(known: map<string, P>, truth: map<string, Account<D>>, inputs: seq<Input<D>>,
      show: (Account<D>, string) -> P) {
    && known.Keys == truth.Keys
    && forall n :: n in truth ==>
         exists address :: IsLastAddress(inputs, n, address) && known[n] == show(truth[n], address)
  }

  /**
    Replaying what the listener received shows exactly the enabled accounts of the router
    that have no live session, each with the address of its latest session that had one.
   */
  lemma ReplayShowsCurrentAddresses<D(!new), P(!new)>(inputs: seq<Input<D>>,
      batches: seq<seq<Event<Account<D>>>>, show: (Account<D>, string) -> P)
    requires WellFormedFeed(inputs) && IsEmission(inputs, batches)
    ensures UniqueNames(RouterAfter(inputs).accounts)
    ensures ShowsTruth(Replay(map[], Emitted(inputs, batches, show)), Recompute(RouterAfter(inputs)), inputs, show)
  {
    ReplayShowsAddresses(inputs, batches, show);
    InactiveIsRecomputed(inputs);
    RunTracks(inputs);
    var truth := Recompute(RouterAfter(inputs));
    forall n | n in truth
      ensures IsLastAddress(inputs, n, Lookup(Run(inputs).addresses, n)) {
      AddressIsLast(inputs, n);
    }
  }
}
