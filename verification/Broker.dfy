/**
  The SSE broker of api/sse/broker.go: one backend stream fanned out to many clients
  through bounded channels.

  Subscribe and Unsubscribe are atomic (they hold the mutex).  Publish takes a snapshot
  under the mutex and then sends without it, so a publish is a snapshot step followed by
  one send step per channel, and all steps of all goroutines may interleave.
 */
module Broker {

  const BUFFER_SIZE := 32

  /** A client's channel. `since` is the number of publishes begun before it was made. */
  datatype Channel<E> = Channel(buffer: seq<E>, received: seq<E>, since: nat)

  /** A publish: the channels of its snapshot, and how many of them it has offered the event to. */
  datatype Publish<E> = Publish(event: E, snapshot: seq<nat>, next: nat)

  datatype Lifecycle = Start | Stop

  /**
    `subs` maps a client id to its channel; `channels` holds every channel ever made and
    `publishes` every publish ever begun.  `lifecycle` records the successful onStart
    calls and the onStop calls.
   */
  datatype State<E> = State(
    subs: map<string, nat>, started: bool, dropped: nat,
    channels: seq<Channel<E>>, publishes: seq<Publish<E>>, lifecycle: seq<Lifecycle>)

  datatype Step<E> =
    | Subscribe(client: string, startOk: bool)
    | Unsubscribe(client: string)
    | Snapshot(event: E, order: seq<nat>)
    | Send(publish: nat)
    | Receive(channel: nat)

  function Initial<E>(): State<E> {
    State(map[], false, 0, [], [], [])
  }

  // ---------------------------------------------------------------- steps

  function SubscribeStep<E>(s: State<E>, client: string, startOk: bool): State<E> {
    if !s.started && !startOk then s
    else
      s.(started := true,
         lifecycle := if s.started then s.lifecycle else s.lifecycle + [Start],
         channels := s.channels + [Channel([], [], |s.publishes|)],
         subs := s.subs[client := |s.channels|])
  }

  function UnsubscribeStep<E>(s: State<E>, client: string): State<E> {
    var left := s.subs - {client};
    if left == map[] && s.started then s.(subs := left, started := false, lifecycle := s.lifecycle + [Stop])
    else s.(subs := left)
  }

  /** A Go map is walked in any order: a snapshot lists each subscriber's channel once. */
  ghost predicate IsOrder(subs: map<string, nat>, order: seq<nat>) {
    && (forall i :: 0 <= i < |order| ==> order[i] in subs.Values)
    && (forall i, j :: 0 <= i < j < |order| ==> order[i] != order[j])
    && |order| == |subs|
  }

  /** A non-blocking send: a full buffer loses the event. */
  function Offer<E>(channels: seq<Channel<E>>, c: nat, event: E): seq<Channel<E>>
    requires c < |channels|
  {
    if |channels[c].buffer| < BUFFER_SIZE then channels[c := channels[c].(buffer := channels[c].buffer + [event])]
    else channels
  }

  function SendStep<E>(s: State<E>, p: nat): State<E>
    requires p < |s.publishes| && s.publishes[p].next < |s.publishes[p].snapshot|
    requires s.publishes[p].snapshot[s.publishes[p].next] < |s.channels|
  {
    var pub := s.publishes[p];
    var c := pub.snapshot[pub.next];
    s.(publishes := s.publishes[p := pub.(next := pub.next + 1)],
       channels := Offer(s.channels, c, pub.event),
       dropped := if |s.channels[c].buffer| < BUFFER_SIZE then s.dropped else s.dropped + 1)
  }

  function ReceiveStep<E>(s: State<E>, c: nat): State<E>
    requires c < |s.channels| && s.channels[c].buffer != []
  {
    var ch := s.channels[c];
    s.(channels := s.channels[c := ch.(buffer := ch.buffer[1..], received := ch.received + [ch.buffer[0]])])
  }

  ghost predicate Enabled<E>(s: State<E>, step: Step<E>) {
    match step
    case Subscribe(_, _) => true
    case Unsubscribe(_) => true
    case Snapshot(_, order) => IsOrder(s.subs, order)
    case Send(p) =>
      && p < |s.publishes| && s.publishes[p].next < |s.publishes[p].snapshot|
      && s.publishes[p].snapshot[s.publishes[p].next] < |s.channels|
    case Receive(c) => c < |s.channels| && s.channels[c].buffer != []
  }

  ghost function Apply<E>(s: State<E>, step: Step<E>): State<E>
    requires Enabled(s, step)
  {
    match step
    case Subscribe(client, startOk) => SubscribeStep(s, client, startOk)
    case Unsubscribe(client) => UnsubscribeStep(s, client)
    case Snapshot(event, order) => s.(publishes := s.publishes + [Publish(event, order, 0)])
    case Send(p) => SendStep(s, p)
    case Receive(c) => ReceiveStep(s, c)
  }

  /** states[0] is the start; each step leads from one state to the next. */
  ghost predicate IsTrace<E>(states: seq<State<E>>, steps: seq<Step<E>>) {
    && |states| == |steps| + 1 && states[0] == Initial()
    && forall k :: 0 <= k < |steps| ==> Enabled(states[k], steps[k]) && states[k + 1] == Apply(states[k], steps[k])
  }

  ghost predicate InRange<E>(channels: seq<Channel<E>>, order: seq<nat>) {
    && (forall i :: 0 <= i < |order| ==> order[i] < |channels|)
    && (forall i, j :: 0 <= i < j < |order| ==> order[i] != order[j])
  }

  /** The channels after offering one event to each channel of a list in turn. */
  ghost function OfferAll<E>(channels: seq<Channel<E>>, order: seq<nat>, event: E): (after: seq<Channel<E>>)
    requires InRange(channels, order)
    ensures |after| == |channels|
  {
    if order == [] then channels
    else Offer(OfferAll(channels, order[..|order| - 1], event), order[|order| - 1], event)
  }

  /** How many channels of a list have no room. */
  function FullIn<E>(channels: seq<Channel<E>>, order: seq<nat>): nat {
    if order == [] then 0
    else
      var c := order[|order| - 1];
      FullIn(channels, order[..|order| - 1]) + if c < |channels| && |channels[c].buffer| >= BUFFER_SIZE then 1 else 0
  }

  /** The channels of a list that have no room. */
  function Full<E>(channels: seq<Channel<E>>, order: seq<nat>): set<nat> {
    set c | c in order && c < |channels| && |channels[c].buffer| >= 32
  }

  lemma {:induction false} FullCounted<E>(channels: seq<Channel<E>>, order: seq<nat>)
    requires InRange(channels, order)
    ensures FullIn(channels, order) == |Full(channels, order)|
  {
    if order != [] {
      var before, last := order[..|order| - 1], order[|order| - 1];
      assert order == before + [last];
      FullCounted(channels, before);
      assert last !in before;
      assert Full(channels, order) ==
          Full(channels, before) + if |channels[last].buffer| >= 32 then {last} else {};
    }
  }

  lemma {:induction false} OfferAllEach<E>(channels: seq<Channel<E>>, order: seq<nat>, event: E, c: nat)
    requires InRange(channels, order) && c < |channels|
    ensures OfferAll(channels, order, event)[c] ==
            if c in order && |channels[c].buffer| < BUFFER_SIZE then
              channels[c].(buffer := channels[c].buffer + [event])
            else channels[c]
  {
    if order != [] {
      var before, last := order[..|order| - 1], order[|order| - 1];
      assert order == before + [last];
      OfferAllEach(channels, before, event, c);
    }
  }

  /** The offer to the next channel of a list meets that channel as it was at the start. */
  lemma OfferNext<E>(channels: seq<Channel<E>>, order: seq<nat>, event: E, i: nat)
    requires InRange(channels, order) && i < |order|
    ensures InRange(channels, order[..i]) && InRange(channels, order[..i + 1])
    ensures var sofar, c := OfferAll(channels, order[..i], event), order[i];
      && OfferAll(channels, order[..i + 1], event) == Offer(sofar, c, event)
      && FullIn(channels, order[..i + 1])
          == FullIn(channels, order[..i]) + if |sofar[c].buffer| < BUFFER_SIZE then 0 else 1
  {
    assert order[..i + 1][..i] == order[..i];
    assert order[i] !in order[..i];
    OfferAllEach(channels, order[..i], event, order[i]);
  }

  /** `s` is `start` after publish p has made its first i offers and nothing else happened. */
  ghost predicate IsSent<E>(start: State<E>, p: nat, i: nat, s: State<E>) {
    && p < |start.publishes| && i <= |start.publishes[p].snapshot|
    && InRange(start.channels, start.publishes[p].snapshot[..i])
    && var pub := start.publishes[p];
    s == start.(publishes := start.publishes[p := pub.(next := i)],
                channels := OfferAll(start.channels, pub.snapshot[..i], pub.event),
                dropped := start.dropped + FullIn(start.channels, pub.snapshot[..i]))
  }

  lemma NothingSent<E>(s: State<E>, p: nat)
    requires p < |s.publishes| && s.publishes[p].next == 0
    ensures IsSent(s, p, 0, s)
  {
    assert s.publishes[p := s.publishes[p].(next := 0)] == s.publishes;
  }

  lemma OneMoreSent<E>(start: State<E>, p: nat, i: nat, s: State<E>)
    requires Safe(start) && Safe(s) && IsSent(start, p, i, s) && i < |start.publishes[p].snapshot|
    ensures Enabled(s, Send(p)) && Safe(SendStep(s, p)) && IsSent(start, p, i + 1, SendStep(s, p))
  {
    var pub := start.publishes[p];
    assert IsSnapshot(start.channels, pub, p);
    OfferNext(start.channels, pub.snapshot, pub.event, i);
    SafeStep(s, Send(p));
    assert start.publishes[p := pub.(next := i)][p := pub.(next := i + 1)] == start.publishes[p := pub.(next := i + 1)];
  }

  // ---------------------------------------------------------------- the class

  class Broker<E> {
    var subs: map<string, nat>
    var started: bool
    var dropped: nat
    var channels: seq<Channel<E>>
    var publishes: seq<Publish<E>>
    var lifecycle: seq<Lifecycle>

    ghost function Abs(): State<E>
      reads this
    {
      State(subs, started, dropped, channels, publishes, lifecycle)
    }

    constructor ()
      ensures Abs() == Initial()
    {
      subs, started, dropped := map[], false, 0;
      channels, publishes, lifecycle := [], [], [];
    }

    /** `startOk` is the outcome of onStart, which is called for the first subscriber only. */
    method SubscribeClient(client: string, startOk: bool) returns (ok: bool, channel: nat)
      modifies this
      ensures Abs() == Apply(old(Abs()), Subscribe(client, startOk))
      ensures ok == (old(started) || startOk)
      ensures ok ==> client in subs && subs[client] == channel == |old(channels)|
      ensures ok ==> channels == old(channels) + [Channel([], [], |old(publishes)|)] && publishes == old(publishes)
    {
      if !started {
        if !startOk {
          return false, 0;
        }
        started := true;
        lifecycle := lifecycle + [Start];
      }
      channel := |channels|;
      channels := channels + [Channel([], [], |publishes|)];
      subs := subs[client := channel];
      ok := true;
    }

    method UnsubscribeClient(client: string)
      modifies this
      ensures Abs() == Apply(old(Abs()), Unsubscribe(client))
      ensures subs == old(subs) - {client} && channels == old(channels) && publishes == old(publishes)
    {
      subs := subs - {client};
      if |subs| == 0 && started {
        lifecycle := lifecycle + [Stop];
        started := false;
      }
    }

    /** The locked half of Publish. */
    method TakeSnapshot(event: E) returns (publish: nat, order: seq<nat>)
      requires Safe(Abs())
      modifies this
      ensures Enabled(old(Abs()), Snapshot(event, order)) && Abs() == Apply(old(Abs()), Snapshot(event, order))
      ensures publish == |old(publishes)| && Safe(Abs())
    {
      order := [];
      var left := subs.Keys;
      while left != {}
        invariant left <= subs.Keys && |order| + |left| == |subs.Keys|
        invariant forall i :: 0 <= i < |order| ==> exists k :: k in subs.Keys - left && order[i] == subs[k]
        invariant forall i, j :: 0 <= i < j < |order| ==> order[i] != order[j]
      {
        var k :| k in left;
        left := left - {k};
        order := order + [subs[k]];
      }
      publish := |publishes|;
      publishes := publishes + [Publish(event, order, 0)];
    }

    /** One non-blocking send of the unlocked half of Publish. */
    method SendNext(p: nat)
      requires Enabled(Abs(), Send(p))
      modifies this
      ensures Abs() == Apply(old(Abs()), Send(p))
    {
      var pub := publishes[p];
      var c := pub.snapshot[pub.next];
      if |channels[c].buffer| < BUFFER_SIZE {
        channels := channels[c := channels[c].(buffer := channels[c].buffer + [pub.event])];
      } else {
        dropped := dropped + 1;
      }
      publishes := publishes[p := pub.(next := pub.next + 1)];
    }

    /** Publish with nobody in between: every subscriber with room gets the event, every other one costs a drop. */
    method PublishEvent(event: E) returns (order: seq<nat>)
      requires Safe(Abs())
      modifies this
      ensures Safe(Abs())
      ensures subs == old(subs) && IsOrder(subs, order)
      ensures started == old(started) && lifecycle == old(lifecycle)
      ensures publishes == old(publishes) + [Publish(event, order, |order|)]
      ensures |channels| == |old(channels)|
      ensures forall c :: 0 <= c < |channels| ==>
                channels[c] == if c in order && |old(channels)[c].buffer| < 32
                               then old(channels)[c].(buffer := old(channels)[c].buffer + [event]) else old(channels)[c]
      ensures dropped == old(dropped) + |Full(old(channels), order)|
    {
      ghost var before := channels;
      var p;
      p, order := TakeSnapshot(event);
      SendAll(p);
      assert order[..|order|] == order;
      assert publishes == old(publishes) + [Publish(event, order, |order|)];
      forall c | 0 <= c < |before|
        ensures channels[c] == if c in order && |before[c].buffer| < BUFFER_SIZE
                               then before[c].(buffer := before[c].buffer + [event]) else before[c] {
        OfferAllEach(before, order, event, c);
      }
      FullCounted(before, order);
    }

    /** The sends of a publish, one after the other. */
    method SendAll(p: nat)
      requires Safe(Abs()) && p < |publishes| && publishes[p].next == 0
      modifies this
      ensures Safe(Abs()) && IsSent(old(Abs()), p, |old(publishes)[p].snapshot|, Abs())
    {
      ghost var start := Abs();
      var order := publishes[p].snapshot;
      assert IsSnapshot(channels, publishes[p], p);
      NothingSent(start, p);
      for i := 0 to |order|
        invariant Safe(Abs()) && IsSent(start, p, i, Abs())
      {
        OneMoreSent(start, p, i, Abs());
        SendNext(p);
      }
    }

    /** The client's loop takes the next event. */
    method ReceiveNext(c: nat) returns (event: E)
      requires Enabled(Abs(), Receive(c))
      modifies this
      ensures Abs() == Apply(old(Abs()), Receive(c)) && event == old(channels)[c].buffer[0]
    {
      event := channels[c].buffer[0];
      var ch := channels[c];
      channels := channels[c := ch.(buffer := ch.buffer[1..], received := ch.received + [event])];
    }
  }

  // ---------------------------------------------------------------- safety of every interleaving

  /** Starts and stops strictly alternate, beginning with a start. */
  ghost predicate Alternates(lifecycle: seq<Lifecycle>) {
    forall i :: 0 <= i < |lifecycle| ==> lifecycle[i] == if i % 2 == 0 then Start else Stop
  }

  function Contents<E>(ch: Channel<E>): seq<E> {
    ch.received + ch.buffer
  }

  /** Events ever put into the channels. */
  function Enqueued<E>(channels: seq<Channel<E>>): nat {
    if channels == [] then 0 else |Contents(channels[0])| + Enqueued(channels[1..])
  }

  /** Offers made so far by all publishes; a finished publish has made one per channel of its snapshot. */
  function Offers<E>(publishes: seq<Publish<E>>): nat {
    if publishes == [] then 0 else publishes[0].next + Offers(publishes[1..])
  }

  /** The backend runs exactly while somebody is subscribed. */
  ghost predicate Refcounted(subs: map<string, nat>, started: bool, lifecycle: seq<Lifecycle>) {
    && (started <==> subs != map[])
    && Alternates(lifecycle) && (started <==> |lifecycle| % 2 == 1)
  }

  ghost predicate Bounded<E>(channels: seq<Channel<E>>, publishes: nat) {
    forall c :: 0 <= c < |channels| ==> |channels[c].buffer| <= BUFFER_SIZE && channels[c].since <= publishes
  }

  /** Every subscriber has a channel of its own. */
  ghost predicate Wired(subs: map<string, nat>, channels: nat) {
    && (forall k :: k in subs ==> subs[k] < channels)
    && (forall k, l :: k in subs && l in subs && k != l ==> subs[k] != subs[l])
  }

  /** The channels of a snapshot exist, are distinct, and were made before the publish. */
  ghost predicate IsSnapshot<E>(channels: seq<Channel<E>>, pub: Publish<E>, p: nat) {
    && pub.next <= |pub.snapshot|
    && (forall i :: 0 <= i < |pub.snapshot| ==> pub.snapshot[i] < |channels| && channels[pub.snapshot[i]].since <= p)
    && (forall i, j :: 0 <= i < j < |pub.snapshot| ==> pub.snapshot[i] != pub.snapshot[j])
  }

  ghost predicate Snapshots<E>(channels: seq<Channel<E>>, publishes: seq<Publish<E>>) {
    forall p :: 0 <= p < |publishes| ==> IsSnapshot(channels, publishes[p], p)
  }

  ghost predicate Safe<E>(s: State<E>) {
    && Refcounted(s.subs, s.started, s.lifecycle)
    && Bounded(s.channels, |s.publishes|)
    && Wired(s.subs, |s.channels|)
    && Snapshots(s.channels, s.publishes)
  }

  ghost predicate Conserved<E>(s: State<E>) {
    Enqueued(s.channels) + s.dropped == Offers(s.publishes)
  }

  lemma {:induction false} EnqueuedUpdate<E>(channels: seq<Channel<E>>, c: nat, ch: Channel<E>)
    requires c < |channels|
    ensures Enqueued(channels[c := ch]) == Enqueued(channels) - |Contents(channels[c])| + |Contents(ch)|
  {
    if c == 0 {
      assert channels[0 := ch][1..] == channels[1..];
    } else {
      assert channels[c := ch][1..] == channels[1..][c - 1 := ch];
      EnqueuedUpdate(channels[1..], c - 1, ch);
    }
  }

  lemma {:induction false} EnqueuedAppend<E>(channels: seq<Channel<E>>, ch: Channel<E>)
    ensures Enqueued(channels + [ch]) == Enqueued(channels) + |Contents(ch)|
  {
    if channels == [] {
      assert channels + [ch] == [ch];
      assert [ch][1..] == [];
    } else {
      assert (channels + [ch])[1..] == channels[1..] + [ch];
      EnqueuedAppend(channels[1..], ch);
    }
  }

  lemma {:induction false} OffersUpdate<E>(publishes: seq<Publish<E>>, p: nat, pub: Publish<E>)
    requires p < |publishes|
    ensures Offers(publishes[p := pub]) == Offers(publishes) - publishes[p].next + pub.next
  {
    if p == 0 {
      assert publishes[0 := pub][1..] == publishes[1..];
    } else {
      assert publishes[p := pub][1..] == publishes[1..][p - 1 := pub];
      OffersUpdate(publishes[1..], p - 1, pub);
    }
  }

  lemma {:induction false} OffersAppend<E>(publishes: seq<Publish<E>>, pub: Publish<E>)
    ensures Offers(publishes + [pub]) == Offers(publishes) + pub.next
  {
    if publishes == [] {
      assert publishes + [pub] == [pub];
      assert [pub][1..] == [];
    } else {
      assert (publishes + [pub])[1..] == publishes[1..] + [pub];
      OffersAppend(publishes[1..], pub);
    }
  }

  /** Replacing or adding channels disturbs no snapshot as long as nobody's `since` moves. */
  lemma SnapshotsStay<E>(before: seq<Channel<E>>, after: seq<Channel<E>>, publishes: seq<Publish<E>>)
    requires Snapshots(before, publishes) && |before| <= |after|
    requires forall c :: 0 <= c < |before| ==> after[c].since == before[c].since
    ensures Snapshots(after, publishes)
  {
    forall p | 0 <= p < |publishes| ensures IsSnapshot(after, publishes[p], p) {
      assert IsSnapshot(before, publishes[p], p);
    }
  }

  lemma SendSafe<E>(s: State<E>, p: nat)
    requires Safe(s) && Enabled(s, Send(p))
    ensures Safe(SendStep(s, p))
  {
    var t := SendStep(s, p);
    assert Bounded(t.channels, |t.publishes|);
    SnapshotsStay(s.channels, t.channels, s.publishes);
    forall q | 0 <= q < |t.publishes| ensures IsSnapshot(t.channels, t.publishes[q], q) {
      assert IsSnapshot(t.channels, s.publishes[q], q);
    }
  }

  lemma SubscribeSafe<E>(s: State<E>, client: string, startOk: bool)
    requires Safe(s)
    ensures Safe(SubscribeStep(s, client, startOk))
  {
    var t := SubscribeStep(s, client, startOk);
    if s.started || startOk {
      assert client in t.subs;
      SnapshotsStay(s.channels, t.channels, s.publishes);
    }
  }

  lemma SafeStep<E>(s: State<E>, step: Step<E>)
    requires Safe(s) && Enabled(s, step)
    ensures Safe(Apply(s, step))
  {
    match step
    case Subscribe(client, startOk) => SubscribeSafe(s, client, startOk);
    case Unsubscribe(client) =>
    case Snapshot(event, order) =>
      assert IsSnapshot(s.channels, Publish(event, order, 0), |s.publishes|);
    case Send(q) => SendSafe(s, q);
    case Receive(c) => SnapshotsStay(s.channels, ReceiveStep(s, c).channels, s.publishes);
  }

  lemma ConservedStep<E>(s: State<E>, step: Step<E>)
    requires Conserved(s) && Enabled(s, step)
    ensures Conserved(Apply(s, step))
  {
    match step
    case Subscribe(client, startOk) => EnqueuedAppend(s.channels, Channel([], [], |s.publishes|));
    case Unsubscribe(client) =>
    case Snapshot(event, order) => OffersAppend(s.publishes, Publish(event, order, 0));
    case Send(p) =>
      var pub := s.publishes[p];
      var c := pub.snapshot[pub.next];
      OffersUpdate(s.publishes, p, pub.(next := pub.next + 1));
      EnqueuedUpdate(s.channels, c, s.channels[c].(buffer := s.channels[c].buffer + [pub.event]));
    case Receive(c) =>
      var ch := s.channels[c];
      EnqueuedUpdate(s.channels, c, ch.(buffer := ch.buffer[1..], received := ch.received + [ch.buffer[0]]));
  }

  lemma TracePrefix<E>(states: seq<State<E>>, steps: seq<Step<E>>)
    requires IsTrace(states, steps) && steps != []
    ensures IsTrace(states[..|steps|], steps[..|steps| - 1])
    ensures Enabled(states[|steps| - 1], steps[|steps| - 1])
    ensures states[|steps|] == Apply(states[|steps| - 1], steps[|steps| - 1])
  {
  }

  /**
    Every interleaving: the backend is running exactly while somebody is subscribed, its
    starts and stops alternate, no buffer exceeds 32 events, and every offer a publish has
    made is an event in some channel or a counted drop.
   */
  lemma {:induction false} AlwaysSafe<E>(states: seq<State<E>>, steps: seq<Step<E>>)
    requires IsTrace(states, steps)
    ensures Safe(states[|steps|]) && Conserved(states[|steps|])
  {
    if steps != [] {
      TracePrefix(states, steps);
      AlwaysSafe(states[..|steps|], steps[..|steps| - 1]);
      SafeStep(states[|steps| - 1], steps[|steps| - 1]);
      ConservedStep(states[|steps| - 1], steps[|steps| - 1]);
    }
  }

  function SnapshotSizes<E>(publishes: seq<Publish<E>>): nat {
    if publishes == [] then 0 else |publishes[0].snapshot| + SnapshotSizes(publishes[1..])
  }

  predicate Finished<E>(publishes: seq<Publish<E>>) {
    forall p :: 0 <= p < |publishes| ==> publishes[p].next == |publishes[p].snapshot|
  }

  lemma {:induction false} FinishedOffers<E>(publishes: seq<Publish<E>>)
    requires Finished(publishes)
    ensures Offers(publishes) == SnapshotSizes(publishes)
  {
    if publishes != [] {
      assert forall p :: 0 <= p < |publishes| - 1 ==> publishes[1..][p] == publishes[p + 1];
      FinishedOffers(publishes[1..]);
    }
  }

  /** Between publishes nothing is lost: snapshot sizes sum to the events in channels plus the drops. */
  lemma NothingLost<E>(states: seq<State<E>>, steps: seq<Step<E>>)
    requires IsTrace(states, steps) && Finished(states[|steps|].publishes)
    ensures var s := states[|steps|];
      SnapshotSizes(s.publishes) == Enqueued(s.channels) + s.dropped
  {
    AlwaysSafe(states, steps);
    FinishedOffers(states[|steps|].publishes);
  }

  // ---------------------------------------------------------------- order, publisher by publisher

  /** a can be had from b by leaving elements out. */
  predicate IsSubsequence<E(==)>(a: seq<E>, b: seq<E>) {
    a == [] ||
    (b != [] &&
     ((a[|a| - 1] == b[|b| - 1] && IsSubsequence(a[..|a| - 1], b[..|b| - 1])) || IsSubsequence(a, b[..|b| - 1])))
  }

  /** The events of publisher q among others; `author` says who published an event. */
  function Own<E>(events: seq<E>, author: E -> nat, q: nat): seq<E> {
    if events == [] then []
    else
      var last := events[|events| - 1];
      Own(events[..|events| - 1], author, q) + if author(last) == q then [last] else []
  }

  function Events<E>(publishes: seq<Publish<E>>): (events: seq<E>)
    ensures |events| == |publishes| && forall i :: 0 <= i < |events| ==> events[i] == publishes[i].event
  {
    if publishes == [] then [] else [publishes[0].event] + Events(publishes[1..])
  }

  ghost predicate Pends<E>(pub: Publish<E>, c: nat) {
    exists i :: pub.next <= i < |pub.snapshot| && pub.snapshot[i] == c
  }

  /** Every publish of q is finished. */
  ghost predicate FinishedBy<E>(publishes: seq<Publish<E>>, author: E -> nat, q: nat) {
    forall p :: 0 <= p < |publishes| && author(publishes[p].event) == q ==> publishes[p].next == |publishes[p].snapshot|
  }

  /** Publishers work concurrently, but each begins a publish only when its previous one is finished. */
  ghost predicate EachInTurn<E>(states: seq<State<E>>, steps: seq<Step<E>>, author: E -> nat)
    requires |states| == |steps| + 1
  {
    forall k :: 0 <= k < |steps| && steps[k].Snapshot? ==>
        FinishedBy(states[k].publishes, author, author(steps[k].event))
  }

  /** A publish of q still has to offer its event to channel c. */
  ghost predicate Awaits<E>(publishes: seq<Publish<E>>, author: E -> nat, q: nat, c: nat) {
    exists p :: 0 <= p < |publishes| && author(publishes[p].event) == q && Pends(publishes[p], c)
  }

  /** Contents are a subsequence of the events, without the last one if that is still to come. */
  ghost predicate InOrder<E>(contents: seq<E>, events: seq<E>, awaiting: bool) {
    && IsSubsequence(contents, events)
    && (awaiting ==> events != [] && IsSubsequence(contents, events[..|events| - 1]))
  }

  /** Channel c is in order as far as publisher q goes. */
  ghost predicate ChannelInOrder<E>(channels: seq<Channel<E>>, publishes: seq<Publish<E>>, author: E -> nat, q: nat,
                                    c: nat) {
    c < |channels| ==>
      && channels[c].since <= |publishes|
      && InOrder(Own(Contents(channels[c]), author, q), Own(Events(publishes)[channels[c].since..], author, q),
          Awaits(publishes, author, q, c))
  }

  /** Only the last publish of q may be unfinished. */
  ghost predicate LastIsOpen<E>(publishes: seq<Publish<E>>, author: E -> nat, q: nat) {
    forall p, r :: 0 <= p < r < |publishes| && author(publishes[p].event) == q && author(publishes[r].event) == q ==>
      publishes[p].next == |publishes[p].snapshot|
  }

  ghost predicate Ordered<E>(s: State<E>, author: E -> nat, q: nat) {
    LastIsOpen(s.publishes, author, q) && forall c: nat :: ChannelInOrder(s.channels, s.publishes, author, q, c)
  }

  lemma {:induction false} SubsequenceSkips<E>(a: seq<E>, b: seq<E>, e: E)
    requires IsSubsequence(a, b)
    ensures IsSubsequence(a, b + [e])
  {
    assert (b + [e])[..|b|] == b;
  }

  lemma {:induction false} SubsequenceTakes<E>(a: seq<E>, b: seq<E>, e: E)
    requires IsSubsequence(a, b)
    ensures IsSubsequence(a + [e], b + [e])
  {
    assert (a + [e])[..|a|] == a && (b + [e])[..|b|] == b;
  }

  lemma {:induction false} EventsAppend<E>(publishes: seq<Publish<E>>, pub: Publish<E>)
    ensures Events(publishes + [pub]) == Events(publishes) + [pub.event]
  {
  }

  lemma EventsUpdate<E>(publishes: seq<Publish<E>>, p: nat, pub: Publish<E>)
    requires p < |publishes| && pub.event == publishes[p].event
    ensures Events(publishes[p := pub]) == Events(publishes)
  {
  }

  lemma OwnAppend<E>(events: seq<E>, e: E, author: E -> nat, q: nat)
    ensures author(e) == q ==> Own(events + [e], author, q) == Own(events, author, q) + [e]
    ensures author(e) != q ==> Own(events + [e], author, q) == Own(events, author, q)
  {
    assert (events + [e])[..|events|] == events;
  }

  lemma {:induction false} OwnConcat<E>(a: seq<E>, b: seq<E>, author: E -> nat, q: nat)
    ensures Own(a + b, author, q) == Own(a, author, q) + Own(b, author, q)
  {
    if b == [] {
      assert a + b == a;
    } else {
      var front, last := b[..|b| - 1], b[|b| - 1];
      OwnConcat(a, front, author, q);
      assert a + b == (a + front) + [last] && b == front + [last];
      OwnAppend(a + front, last, author, q);
      OwnAppend(front, last, author, q);
    }
  }

  lemma {:induction false} OwnAll<E>(events: seq<E>, author: E -> nat, q: nat)
    requires forall i :: 0 <= i < |events| ==> author(events[i]) == q
    ensures Own(events, author, q) == events
  {
    if events != [] {
      OwnAll(events[..|events| - 1], author, q);
    }
  }

  /** The last event of q since some moment, when nothing of q comes after it. */
  lemma {:induction false} LastOwn<E>(events: seq<E>, author: E -> nat, q: nat, since: nat, p: nat)
    requires since <= p < |events| && author(events[p]) == q
    requires forall r :: p < r < |events| ==> author(events[r]) != q
    ensures var own := Own(events[since..], author, q); own != [] && own[|own| - 1] == events[p]
  {
    var front, last := events[..|events| - 1], events[|events| - 1];
    assert events[since..] == front[since..] + [last];
    OwnAppend(front[since..], last, author, q);
    if p < |events| - 1 {
      LastOwn(front, author, q, since, p);
    }
  }

  lemma InOrderBegins<E>(contents: seq<E>, events: seq<E>, e: E, awaiting: bool)
    requires InOrder(contents, events, false)
    ensures InOrder(contents, events + [e], awaiting)
  {
    assert (events + [e])[..|events|] == events;
    SubsequenceSkips(contents, events, e);
  }

  /** The awaited event arrives, or is lost. */
  lemma InOrderArrives<E>(contents: seq<E>, after: seq<E>, events: seq<E>, e: E)
    requires InOrder(contents, events, true) && e == events[|events| - 1]
    requires after == contents || after == contents + [e]
    ensures InOrder(after, events, false)
  {
    assert events[..|events| - 1] + [e] == events;
    SubsequenceTakes(contents, events[..|events| - 1], e);
  }

  /** An offer takes exactly its own channel off the list of those still to be served. */
  lemma PendsNext<E>(pub: Publish<E>, c: nat)
    requires pub.next < |pub.snapshot|
    requires forall i, j :: 0 <= i < j < |pub.snapshot| ==> pub.snapshot[i] != pub.snapshot[j]
    ensures Pends(pub.(next := pub.next + 1), c) <==> Pends(pub, c) && c != pub.snapshot[pub.next]
    ensures Pends(pub, pub.snapshot[pub.next])
  {
    if Pends(pub, c) && c != pub.snapshot[pub.next] {
      var i :| pub.next <= i < |pub.snapshot| && pub.snapshot[i] == c;
      assert pub.next + 1 <= i;
    }
  }

  lemma SnapshotInOrder<E>(s: State<E>, event: E, order: seq<nat>, author: E -> nat, q: nat, c: nat)
    requires ChannelInOrder(s.channels, s.publishes, author, q, c) && FinishedBy(s.publishes, author, author(event))
    ensures ChannelInOrder(s.channels, s.publishes + [Publish(event, order, 0)], author, q, c)
  {
    var more := s.publishes + [Publish(event, order, 0)];
    if c < |s.channels| {
      var since := s.channels[c].since;
      EventsAppend(s.publishes, Publish(event, order, 0));
      assert Events(more)[since..] == Events(s.publishes)[since..] + [event];
      OwnAppend(Events(s.publishes)[since..], event, author, q);
      if author(event) == q {
        assert !Awaits(s.publishes, author, q, c);
        InOrderBegins(Own(Contents(s.channels[c]), author, q), Own(Events(s.publishes)[since..], author, q), event,
            Awaits(more, author, q, c));
      } else {
        AwaitsOthers(s.publishes, Publish(event, order, 0), author, q, c);
      }
    }
  }

  lemma AwaitsOthers<E>(publishes: seq<Publish<E>>, pub: Publish<E>, author: E -> nat, q: nat, c: nat)
    requires author(pub.event) != q
    ensures Awaits(publishes + [pub], author, q, c) <==> Awaits(publishes, author, q, c)
  {
    var more := publishes + [pub];
    if Awaits(publishes, author, q, c) {
      var p :| 0 <= p < |publishes| && author(publishes[p].event) == q && Pends(publishes[p], c);
      assert more[p] == publishes[p];
    }
  }

  /** While publish p of q is open, it alone decides what q still owes a channel. */
  lemma AwaitsOpen<E>(publishes: seq<Publish<E>>, p: nat, pub: Publish<E>, author: E -> nat, q: nat, c: nat)
    requires p < |publishes| && author(publishes[p].event) == q && author(pub.event) == q
    requires LastIsOpen(publishes, author, q) && publishes[p].next < |publishes[p].snapshot|
    ensures Awaits(publishes[p := pub], author, q, c) <==> Pends(pub, c)
    ensures forall r :: p < r < |publishes| ==> author(publishes[r].event) != q
  {
    var after := publishes[p := pub];
    if Pends(pub, c) {
      assert after[p] == pub;
    }
    if Awaits(after, author, q, c) {
      var r :| 0 <= r < |after| && author(after[r].event) == q && Pends(after[r], c);
      assert r <= p;
      assert r < p ==> publishes[r].next == |publishes[r].snapshot|;
    }
  }

  lemma AwaitsUnchanged<E>(publishes: seq<Publish<E>>, p: nat, pub: Publish<E>, author: E -> nat, q: nat, c: nat)
    requires p < |publishes| && author(publishes[p].event) != q && author(pub.event) != q
    ensures Awaits(publishes[p := pub], author, q, c) <==> Awaits(publishes, author, q, c)
  {
    var after := publishes[p := pub];
    if Awaits(publishes, author, q, c) {
      var r :| 0 <= r < |publishes| && author(publishes[r].event) == q && Pends(publishes[r], c);
      assert after[r] == publishes[r];
    }
  }

  /** A send of q: the channel served has had its event, every other one still awaits what it awaited. */
  lemma SentInOrder<E>(contents: seq<E>, after: seq<E>, events: seq<E>, pub: Publish<E>, c: nat)
    requires pub.next < |pub.snapshot|
    requires forall i, j :: 0 <= i < j < |pub.snapshot| ==> pub.snapshot[i] != pub.snapshot[j]
    requires InOrder(contents, events, Pends(pub, c))
    requires Pends(pub, c) ==> events != [] && events[|events| - 1] == pub.event
    requires after == contents || (c == pub.snapshot[pub.next] && after == contents + [pub.event])
    ensures InOrder(after, events, Pends(pub.(next := pub.next + 1), c))
  {
    PendsNext(pub, c);
    if c == pub.snapshot[pub.next] {
      InOrderArrives(contents, after, events, pub.event);
    }
  }

  /** What a send puts into channel c. */
  lemma SentContents<E>(s: State<E>, p: nat, c: nat)
    requires Enabled(s, Send(p)) && c < |s.channels|
    ensures var pub, after := s.publishes[p], SendStep(s, p).channels[c];
      && after.since == s.channels[c].since
      && (Contents(after) == Contents(s.channels[c])
          || (c == pub.snapshot[pub.next] && Contents(after) == Contents(s.channels[c]) + [pub.event]))
  {
    var ch, event := s.channels[c], s.publishes[p].event;
    assert ch.received + (ch.buffer + [event]) == Contents(ch) + [event];
  }

  /** A send of q itself. */
  lemma OwnSendInOrder<E>(s: State<E>, p: nat, author: E -> nat, q: nat, c: nat)
    requires Enabled(s, Send(p)) && IsSnapshot(s.channels, s.publishes[p], p) && LastIsOpen(s.publishes, author, q)
    requires c < |s.channels| && author(s.publishes[p].event) == q
    requires ChannelInOrder(s.channels, s.publishes, author, q, c)
    ensures var pub, ch, after := s.publishes[p], s.channels[c], SendStep(s, p).channels[c];
      InOrder(Own(Contents(after), author, q), Own(Events(s.publishes)[ch.since..], author, q),
          Pends(pub.(next := pub.next + 1), c))
  {
    var pub, ch, after := s.publishes[p], s.channels[c], SendStep(s, p).channels[c];
    AwaitsOpen(s.publishes, p, pub, author, q, c);
    assert s.publishes[p := pub] == s.publishes;
    SentContents(s, p, c);
    OwnAppend(Contents(ch), pub.event, author, q);
    if Pends(pub, c) {
      LastOwn(Events(s.publishes), author, q, ch.since, p);
    }
    SentInOrder(Own(Contents(ch), author, q), Own(Contents(after), author, q),
        Own(Events(s.publishes)[ch.since..], author, q), pub, c);
  }

  /** A send of somebody else. */
  lemma OtherSendInOrder<E>(s: State<E>, p: nat, author: E -> nat, q: nat, c: nat)
    requires Enabled(s, Send(p)) && c < |s.channels| && author(s.publishes[p].event) != q
    ensures Own(Contents(SendStep(s, p).channels[c]), author, q) == Own(Contents(s.channels[c]), author, q)
  {
    SentContents(s, p, c);
    OwnAppend(Contents(s.channels[c]), s.publishes[p].event, author, q);
  }

  lemma AwaitsAfterSend<E>(s: State<E>, p: nat, author: E -> nat, q: nat, c: nat)
    requires Enabled(s, Send(p)) && LastIsOpen(s.publishes, author, q)
    ensures var pub, after := s.publishes[p], Awaits(SendStep(s, p).publishes, author, q, c);
      && (author(pub.event) == q ==> (after <==> Pends(pub.(next := pub.next + 1), c)))
      && (author(pub.event) != q ==> (after <==> Awaits(s.publishes, author, q, c)))
  {
    var pub := s.publishes[p];
    if author(pub.event) == q {
      AwaitsOpen(s.publishes, p, pub.(next := pub.next + 1), author, q, c);
    } else {
      AwaitsUnchanged(s.publishes, p, pub.(next := pub.next + 1), author, q, c);
    }
  }

  lemma SendInOrder<E>(s: State<E>, t: State<E>, p: nat, author: E -> nat, q: nat, c: nat)
    requires Enabled(s, Send(p)) && IsSnapshot(s.channels, s.publishes[p], p) && LastIsOpen(s.publishes, author, q)
    requires t == SendStep(s, p) && ChannelInOrder(s.channels, s.publishes, author, q, c)
    ensures ChannelInOrder(t.channels, t.publishes, author, q, c)
  {
    if c < |s.channels| {
      AwaitsAfterSend(s, p, author, q, c);
      SendKeepsEvents(s, p, c);
      if author(s.publishes[p].event) == q {
        OwnSendInOrder(s, p, author, q, c);
      } else {
        OtherSendInOrder(s, p, author, q, c);
      }
    }
  }

  lemma SendKeepsEvents<E>(s: State<E>, p: nat, c: nat)
    requires Enabled(s, Send(p)) && c < |s.channels|
    ensures Events(SendStep(s, p).publishes) == Events(s.publishes)
    ensures SendStep(s, p).channels[c].since == s.channels[c].since
  {
    EventsUpdate(s.publishes, p, s.publishes[p].(next := s.publishes[p].next + 1));
  }

  lemma SendKeepsOpen<E>(s: State<E>, t: State<E>, p: nat, author: E -> nat, q: nat)
    requires LastIsOpen(s.publishes, author, q) && Enabled(s, Send(p)) && t == SendStep(s, p)
    ensures LastIsOpen(t.publishes, author, q)
  {
  }

  lemma SubscribeInOrder<E>(s: State<E>, client: string, startOk: bool, author: E -> nat, q: nat, c: nat)
    requires Safe(s) && ChannelInOrder(s.channels, s.publishes, author, q, c)
    ensures ChannelInOrder(SubscribeStep(s, client, startOk).channels, s.publishes, author, q, c)
  {
    if c == |s.channels| {
      forall p | 0 <= p < |s.publishes| ensures !Pends(s.publishes[p], c) {
        assert IsSnapshot(s.channels, s.publishes[p], p);
      }
      assert Events(s.publishes)[|s.publishes|..] == [];
    }
  }

  lemma SnapshotOrdered<E>(s: State<E>, event: E, order: seq<nat>, author: E -> nat, q: nat)
    requires Ordered(s, author, q) && FinishedBy(s.publishes, author, author(event))
    ensures Ordered(s.(publishes := s.publishes + [Publish(event, order, 0)]), author, q)
  {
    forall c: nat ensures ChannelInOrder(s.channels, s.publishes + [Publish(event, order, 0)], author, q, c) {
      assert ChannelInOrder(s.channels, s.publishes, author, q, c);
      SnapshotInOrder(s, event, order, author, q, c);
    }
  }

  lemma SendOrdered<E>(s: State<E>, t: State<E>, p: nat, author: E -> nat, q: nat)
    requires Safe(s) && Ordered(s, author, q) && Enabled(s, Send(p)) && t == SendStep(s, p)
    ensures Ordered(t, author, q)
  {
    assert IsSnapshot(s.channels, s.publishes[p], p);
    SendKeepsOpen(s, t, p, author, q);
    forall c: nat ensures ChannelInOrder(t.channels, t.publishes, author, q, c) {
      assert ChannelInOrder(s.channels, s.publishes, author, q, c);
      SendInOrder(s, t, p, author, q, c);
    }
  }

  lemma SubscribeOrdered<E>(s: State<E>, client: string, startOk: bool, author: E -> nat, q: nat)
    requires Safe(s) && Ordered(s, author, q)
    ensures Ordered(SubscribeStep(s, client, startOk), author, q)
  {
    var t := SubscribeStep(s, client, startOk);
    forall c: nat ensures ChannelInOrder(t.channels, t.publishes, author, q, c) {
      assert ChannelInOrder(s.channels, s.publishes, author, q, c);
      SubscribeInOrder(s, client, startOk, author, q, c);
    }
  }

  lemma ReceiveOrdered<E>(s: State<E>, r: nat, author: E -> nat, q: nat)
    requires Ordered(s, author, q) && Enabled(s, Receive(r))
    ensures Ordered(ReceiveStep(s, r), author, q)
  {
    var t := ReceiveStep(s, r);
    assert Contents(t.channels[r]) == Contents(s.channels[r]);
    forall c: nat ensures ChannelInOrder(t.channels, t.publishes, author, q, c) {
      assert ChannelInOrder(s.channels, s.publishes, author, q, c);
    }
  }

  lemma OrderedStep<E>(s: State<E>, step: Step<E>, author: E -> nat, q: nat)
    requires Safe(s) && Ordered(s, author, q) && Enabled(s, step)
    requires step.Snapshot? ==> FinishedBy(s.publishes, author, author(step.event))
    ensures Ordered(Apply(s, step), author, q)
  {
    match step
    case Subscribe(client, startOk) => SubscribeOrdered(s, client, startOk, author, q);
    case Unsubscribe(client) =>
      forall c: nat ensures ChannelInOrder(Apply(s, step).channels, Apply(s, step).publishes, author, q, c) {
        assert ChannelInOrder(s.channels, s.publishes, author, q, c);
      }
    case Snapshot(event, order) => SnapshotOrdered(s, event, order, author, q);
    case Send(p) => SendOrdered(s, SendStep(s, p), p, author, q);
    case Receive(r) => ReceiveOrdered(s, r, author, q);
  }

  lemma {:induction false} AlwaysOrdered<E>(states: seq<State<E>>, steps: seq<Step<E>>, author: E -> nat, q: nat)
    requires IsTrace(states, steps) && EachInTurn(states, steps, author)
    ensures Ordered(states[|steps|], author, q)
  {
    if steps != [] {
      TracePrefix(states, steps);
      AlwaysOrdered(states[..|steps|], steps[..|steps| - 1], author, q);
      AlwaysSafe(states[..|steps|], steps[..|steps| - 1]);
      OrderedStep(states[|steps| - 1], steps[|steps| - 1], author, q);
    }
  }

  /**
    With any number of publishers, each client receives of each publisher a subsequence, in
    order, of what that one published since the client subscribed.
   */
  lemma EachPublisherInOrder<E>(states: seq<State<E>>, steps: seq<Step<E>>, author: E -> nat, q: nat, c: nat)
    requires IsTrace(states, steps) && EachInTurn(states, steps, author) && c < |states[|steps|].channels|
    ensures var s := states[|steps|];
      s.channels[c].since <= |s.publishes|
      && IsSubsequence(Own(s.channels[c].received, author, q),
          Own(Events(s.publishes)[s.channels[c].since..], author, q))
  {
    AlwaysOrdered(states, steps, author, q);
    var s := states[|steps|];
    var ch := s.channels[c];
    assert ChannelInOrder(s.channels, s.publishes, author, q, c);
    OwnConcat(ch.received, ch.buffer, author, q);
    SubsequencePrefix(Own(ch.received, author, q), Own(ch.buffer, author, q),
        Own(Events(s.publishes)[ch.since..], author, q));
  }

  /** One publisher: it begins a publish only when its previous one is finished. */
  ghost predicate OnePublisher<E>(states: seq<State<E>>, steps: seq<Step<E>>)
    requires |states| == |steps| + 1
  {
    forall k :: 0 <= k < |steps| && steps[k].Snapshot? ==> Finished(states[k].publishes)
  }

  /** With one publisher, a client receives a subsequence, in order, of what was published since it subscribed. */
  lemma ReceivedInOrder<E>(states: seq<State<E>>, steps: seq<Step<E>>, c: nat)
    requires IsTrace(states, steps) && OnePublisher(states, steps) && c < |states[|steps|].channels|
    ensures var s := states[|steps|];
      s.channels[c].since <= |s.publishes|
      && IsSubsequence(s.channels[c].received, Events(s.publishes)[s.channels[c].since..])
  {
    var one: E -> nat := e => 0;
    EachPublisherInOrder(states, steps, one, 0, c);
    var s := states[|steps|];
    OwnAll(s.channels[c].received, one, 0);
    OwnAll(Events(s.publishes)[s.channels[c].since..], one, 0);
  }

  lemma {:induction false} SubsequencePrefix<E>(a: seq<E>, rest: seq<E>, b: seq<E>)
    requires IsSubsequence(a + rest, b)
    ensures IsSubsequence(a, b)
    decreases |b|, |rest|
  {
    if rest == [] {
      assert a + rest == a;
    } else {
      var whole := a + rest;
      assert whole[..|whole| - 1] == a + rest[..|rest| - 1];
      if whole[|whole| - 1] == b[|b| - 1] && IsSubsequence(whole[..|whole| - 1], b[..|b| - 1]) {
        SubsequencePrefix(a, rest[..|rest| - 1], b[..|b| - 1]);
      } else {
        SubsequencePrefix(a, rest, b[..|b| - 1]);
      }
      SubsequenceSkips(a, b[..|b| - 1], b[|b| - 1]);
      assert b[..|b| - 1] + [b[|b| - 1]] == b;
    }
  }

  // ---------------------------------------------------------------- order over all publishers

  /** A run of no more than n publishers, numbered from zero, each working in turn. */
  ghost predicate IsRunOf<E>(states: seq<State<E>>, steps: seq<Step<E>>, author: E -> nat, n: nat) {
    && IsTrace(states, steps) && EachInTurn(states, steps, author)
    && forall k :: 0 <= k < |steps| && steps[k].Snapshot? ==> author(steps[k].event) < n
  }

  /** Every channel has been given events in the order in which they were published. */
  ghost predicate KeepsPublishOrder<E>(s: State<E>) {
    forall c :: 0 <= c < |s.channels| ==>
      && s.channels[c].since <= |s.publishes|
      && IsSubsequence(Contents(s.channels[c]), Events(s.publishes)[s.channels[c].since..])
  }

  lemma {:induction false} PublishedBy<E>(states: seq<State<E>>, steps: seq<Step<E>>, author: E -> nat, n: nat)
    requires IsRunOf(states, steps, author, n)
    ensures forall p :: 0 <= p < |states[|steps|].publishes| ==> author(states[|steps|].publishes[p].event) < n
  {
    if steps != [] {
      RunPrefix(states, steps, author, n, |steps| - 1);
      PublishedBy(states[..|steps|], steps[..|steps| - 1], author, n);
      StillPublishedBy(states[|steps| - 1], steps[|steps| - 1], author, n);
    }
  }

  lemma StillPublishedBy<E>(s: State<E>, step: Step<E>, author: E -> nat, n: nat)
    requires Enabled(s, step) && (step.Snapshot? ==> author(step.event) < n)
    requires forall p :: 0 <= p < |s.publishes| ==> author(s.publishes[p].event) < n
    ensures forall p :: 0 <= p < |Apply(s, step).publishes| ==> author(Apply(s, step).publishes[p].event) < n
  {
  }

  lemma RunPrefix<E>(states: seq<State<E>>, steps: seq<Step<E>>, author: E -> nat, n: nat, m: nat)
    requires IsRunOf(states, steps, author, n) && m <= |steps|
    ensures IsRunOf(states[..m + 1], steps[..m], author, n)
  {
  }

  /** Fewer than two publishers that work in turn are one publisher. */
  lemma FewAreOne<E>(states: seq<State<E>>, steps: seq<Step<E>>, author: E -> nat, n: nat)
    requires IsRunOf(states, steps, author, n) && n <= 1
    ensures OnePublisher(states, steps)
  {
    forall k | 0 <= k < |steps| && steps[k].Snapshot? ensures Finished(states[k].publishes) {
      RunPrefix(states, steps, author, n, k);
      PublishedBy(states[..k + 1], steps[..k], author, n);
      assert states[..k + 1][k] == states[k];
    }
  }

  lemma OneKeepsOrder<E>(states: seq<State<E>>, steps: seq<Step<E>>)
    requires IsTrace(states, steps) && OnePublisher(states, steps)
    ensures KeepsPublishOrder(states[|steps|])
  {
    var one: E -> nat := e => 0;
    var s := states[|steps|];
    AlwaysOrdered(states, steps, one, 0);
    forall c | 0 <= c < |s.channels|
      ensures s.channels[c].since <= |s.publishes|
      ensures IsSubsequence(Contents(s.channels[c]), Events(s.publishes)[s.channels[c].since..]) {
      assert ChannelInOrder(s.channels, s.publishes, one, 0, c);
      OwnAll(Contents(s.channels[c]), one, 0);
      OwnAll(Events(s.publishes)[s.channels[c].since..], one, 0);
    }
  }

  /**
    For every number of publishers, each working in turn: all their interleavings keep every
    channel in publish order if and only if there is no more than one of them.
   */
  lemma OrderNeedsOnePublisher(n: nat)
    ensures (forall states: seq<State<int>>, steps, author :: IsRunOf(states, steps, author, n) ==>
               KeepsPublishOrder(states[|steps|]))
       <==> n <= 1
  {
    if n <= 1 {
      forall states: seq<State<int>>, steps, author | IsRunOf(states, steps, author, n)
        ensures KeepsPublishOrder(states[|steps|]) {
        FewAreOne(states, steps, author, n);
        OneKeepsOrder(states, steps);
      }
    } else {
      var states, steps := TwoPublishersReorder();
      assert IsRunOf(states, steps, TwoAuthors, n);
      var s := states[|steps|];
      assert Contents(s.channels[0]) == [2, 1] && Events(s.publishes)[0..] == Events(s.publishes);
      assert !KeepsPublishOrder(s);
    }
  }

  function Overtaking(dropped: nat, contents: seq<int>, first: nat, second: nat): State<int> {
    State(map["c" := 0], true, dropped, [Channel(contents, [], 0)], [Publish(1, [0], first), Publish(2, [0], second)],
        [Start])
  }

  lemma FiveSteps<E>(states: seq<State<E>>, steps: seq<Step<E>>)
    requires |states| == 6 && |steps| == 5 && states[0] == Initial()
    requires Enabled(states[0], steps[0]) && states[1] == Apply(states[0], steps[0])
    requires Enabled(states[1], steps[1]) && states[2] == Apply(states[1], steps[1])
    requires Enabled(states[2], steps[2]) && states[3] == Apply(states[2], steps[2])
    requires Enabled(states[3], steps[3]) && states[4] == Apply(states[3], steps[3])
    requires Enabled(states[4], steps[4]) && states[5] == Apply(states[4], steps[4])
    ensures IsTrace(states, steps)
  {
  }

  /** Event 1 comes from publisher 0, every other one from publisher 1. */
  function TwoAuthors(e: int): nat {
    if e == 1 then 0 else 1
  }

  /** Two publishers, each working in turn, can overtake each other: the second event may arrive first. */
  lemma TwoPublishersReorder() returns (states: seq<State<int>>, steps: seq<Step<int>>)
    ensures IsTrace(states, steps) && EachInTurn(states, steps, TwoAuthors)
    ensures states[|steps|] == Overtaking(0, [2, 1], 1, 1)
    ensures !IsSubsequence([2, 1], Events(states[|steps|].publishes))
  {
    var s0: State<int> := Initial();
    var s1: State<int> := State(map["c" := 0], true, 0, [Channel([], [], 0)], [], [Start]);
    var s2: State<int> := s1.(publishes := [Publish(1, [0], 0)]);
    var s3, s4, s5 := Overtaking(0, [], 0, 0), Overtaking(0, [2], 0, 1), Overtaking(0, [2, 1], 1, 1);
    steps := [Subscribe("c", true), Snapshot(1, [0]), Snapshot(2, [0]), Send(1), Send(0)];
    states := [s0, s1, s2, s3, s4, s5];
    OvertakingBegins(s0, s1, s2, s3);
    OvertakingSends();
    FiveSteps(states, steps);
    SwappedIsNoSubsequence();
    assert Events(s5.publishes) == [1, 2];
  }

  lemma OvertakingBegins(s0: State<int>, s1: State<int>, s2: State<int>, s3: State<int>)
    requires s0 == Initial() && s3 == Overtaking(0, [], 0, 0)
    requires s1 == State(map["c" := 0], true, 0, [Channel([], [], 0)], [], [Start])
    requires s2 == s1.(publishes := [Publish(1, [0], 0)])
    ensures Enabled(s1, Snapshot(1, [0])) && Enabled(s2, Snapshot(2, [0]))
    ensures Apply(s0, Subscribe("c", true)) == s1 && Apply(s1, Snapshot(1, [0])) == s2
    ensures Apply(s2, Snapshot(2, [0])) == s3
  {
    assert s1.subs["c"] in s1.subs.Values && |s1.subs| == 1;
    assert IsOrder(s1.subs, [0]);
  }

  lemma OvertakingSends()
    ensures SendStep(Overtaking(0, [], 0, 0), 1) == Overtaking(0, [2], 0, 1)
    ensures SendStep(Overtaking(0, [2], 0, 1), 0) == Overtaking(0, [2, 1], 1, 1)
  {
    assert [Publish(1, [0], 0), Publish(2, [0], 0)][1 := Publish(2, [0], 1)]
        == [Publish(1, [0], 0), Publish(2, [0], 1)];
    assert [Publish(1, [0], 0), Publish(2, [0], 1)][0 := Publish(1, [0], 1)]
        == [Publish(1, [0], 1), Publish(2, [0], 1)];
    assert [Channel([], [], 0)][0 := Channel([2], [], 0)] == [Channel([2], [], 0)];
    assert [Channel([2], [], 0)][0 := Channel([2, 1], [], 0)] == [Channel([2, 1], [], 0)];
    assert [] + [2] == [2] && [2] + [1] == [2, 1];
  }

  lemma SwappedIsNoSubsequence()
    ensures !IsSubsequence([2, 1], [1, 2])
  {
    assert [2, 1][..1] == [2] && [1, 2][..1] == [1] && [1][..0] == [];
    assert !IsSubsequence([2, 1], []) && !IsSubsequence([2], []);
  }
}
