/**
  The SSE hub of api/sse/hub.go and the life of one SSE request (api/handler/stream.go,
  api/sse/writer.go): reserve a slot, subscribe, unsubscribe, release the slot.
 */
module Hub {
  import Broker

  datatype Error = TopicCapExceeded | DeviceCapExceeded

  /** A reservation, and whether its release callback has taken effect. */
  datatype Ticket = Ticket(topic: string, device: string, released: bool)

  type Counts = map<string, nat>

  datatype State = State(perTopic: Counts, perDevice: Counts, maxPerTopic: nat, maxPerDevice: nat, tickets: seq<Ticket>)

  function CountOf(counts: Counts, key: string): nat {
    if key in counts then counts[key] else 0
  }

  function Increment(counts: Counts, key: string): Counts {
    counts[key := CountOf(counts, key) + 1]
  }

  /** The counter of a key that reaches zero is dropped. */
  function Decrement(counts: Counts, key: string): Counts {
    if CountOf(counts, key) == 0 then counts
    else if CountOf(counts, key) == 1 then counts - {key}
    else counts[key := counts[key] - 1]
  }

  /** A negative cap means unlimited, like zero. */
  function NewHub(maxPerTopic: int, maxPerDevice: int): State {
    State(map[], map[], if maxPerTopic < 0 then 0 else maxPerTopic, if maxPerDevice < 0 then 0 else maxPerDevice, [])
  }

  predicate TopicFull(s: State, topic: string) {
    s.maxPerTopic > 0 && CountOf(s.perTopic, topic) >= s.maxPerTopic
  }

  predicate DeviceFull(s: State, device: string) {
    device != "" && s.maxPerDevice > 0 && CountOf(s.perDevice, device) >= s.maxPerDevice
  }

  function ReserveStep(s: State, topic: string, device: string): State {
    if TopicFull(s, topic) || DeviceFull(s, device) then s
    else
      s.(perTopic := Increment(s.perTopic, topic),
         perDevice := if device != "" then Increment(s.perDevice, device) else s.perDevice,
         tickets := s.tickets + [Ticket(topic, device, false)])
  }

  function ReleaseStep(s: State, t: nat): State
    requires t < |s.tickets|
  {
    var ticket := s.tickets[t];
    if ticket.released then s
    else
      s.(tickets := s.tickets[t := ticket.(released := true)],
         perTopic := Decrement(s.perTopic, ticket.topic),
         perDevice := if ticket.device != "" then Decrement(s.perDevice, ticket.device) else s.perDevice)
  }

  /** The Hub object; a release closure is the number of its ticket. */
  class Hub {
    var perTopicCount: Counts
    var perDeviceCount: Counts
    var tickets: seq<Ticket>
    const maxPerTopic: nat
    const maxPerDevice: nat

    ghost function Abs(): State
      reads this
    {
      State(perTopicCount, perDeviceCount, maxPerTopic, maxPerDevice, tickets)
    }

    constructor WithCaps(maxPerTopic: int, maxPerDevice: int)
      ensures Abs() == NewHub(maxPerTopic, maxPerDevice)
    {
      this.maxPerTopic := if maxPerTopic < 0 then 0 else maxPerTopic;
      this.maxPerDevice := if maxPerDevice < 0 then 0 else maxPerDevice;
      perTopicCount, perDeviceCount, tickets := map[], map[], [];
    }

    method Reserve(topic: string, device: string) returns (release: nat, refused: set<Error>)
      modifies this
      ensures Abs() == ReserveStep(old(Abs()), topic, device)
      ensures refused == if TopicFull(old(Abs()), topic) then {TopicCapExceeded}
                         else if DeviceFull(old(Abs()), device) then {DeviceCapExceeded} else {}
      ensures refused == {} ==> release == |old(tickets)| && tickets == old(tickets) + [Ticket(topic, device, false)]
      ensures refused != {} ==> Abs() == old(Abs())
    {
      release := |tickets|;
      if maxPerTopic > 0 && CountOf(perTopicCount, topic) >= maxPerTopic {
        return release, {TopicCapExceeded};
      }
      if device != "" && maxPerDevice > 0 && CountOf(perDeviceCount, device) >= maxPerDevice {
        return release, {DeviceCapExceeded};
      }
      perTopicCount := perTopicCount[topic := CountOf(perTopicCount, topic) + 1];
      if device != "" {
        perDeviceCount := perDeviceCount[device := CountOf(perDeviceCount, device) + 1];
      }
      tickets := tickets + [Ticket(topic, device, false)];
      refused := {};
    }

    method Release(t: nat)
      requires t < |tickets|
      modifies this
      ensures Abs() == ReleaseStep(old(Abs()), t)
    {
      var ticket := tickets[t];
      if ticket.released {
        return;
      }
      tickets := tickets[t := ticket.(released := true)];
      var n := CountOf(perTopicCount, ticket.topic);
      if n > 0 {
        perTopicCount := perTopicCount[ticket.topic := n - 1];
        if perTopicCount[ticket.topic] == 0 {
          perTopicCount := perTopicCount - {ticket.topic};
        }
      }
      if ticket.device != "" {
        n := CountOf(perDeviceCount, ticket.device);
        if n > 0 {
          perDeviceCount := perDeviceCount[ticket.device := n - 1];
          if perDeviceCount[ticket.device] == 0 {
            perDeviceCount := perDeviceCount - {ticket.device};
          }
        }
      }
    }
  }

  // ---------------------------------------------------------------- the counters count

  /** Unreleased reservations of a topic. */
  function OnTopic(tickets: seq<Ticket>, topic: string): set<nat> {
    set t | 0 <= t < |tickets| && !tickets[t].released && tickets[t].topic == topic
  }

  function OnDevice(tickets: seq<Ticket>, device: string): set<nat> {
    set t | 0 <= t < |tickets| && !tickets[t].released && tickets[t].device == device
  }

  ghost predicate Exact(s: State) {
    && (forall k :: k in s.perTopic ==> s.perTopic[k] > 0)
    && (forall k :: k in s.perDevice ==> k != "" && s.perDevice[k] > 0)
    && (forall k :: CountOf(s.perTopic, k) == |OnTopic(s.tickets, k)|)
    && (forall k :: k != "" ==> CountOf(s.perDevice, k) == |OnDevice(s.tickets, k)|)
  }

  ghost predicate WithinCaps(s: State) {
    && (s.maxPerTopic > 0 ==> forall k :: CountOf(s.perTopic, k) <= s.maxPerTopic)
    && (s.maxPerDevice > 0 ==> forall k :: CountOf(s.perDevice, k) <= s.maxPerDevice)
  }

  lemma NewOnTopic(tickets: seq<Ticket>, ticket: Ticket, k: string)
    requires !ticket.released
    ensures OnTopic(tickets + [ticket], k) == OnTopic(tickets, k) + if k == ticket.topic then {|tickets|} else {}
  {
    var more := tickets + [ticket];
    forall t: nat ensures t in OnTopic(more, k) <==> t in OnTopic(tickets, k) || (t == |tickets| && k == ticket.topic) {
      assert t < |tickets| ==> more[t] == tickets[t];
    }
  }

  lemma NewOnDevice(tickets: seq<Ticket>, ticket: Ticket, k: string)
    requires !ticket.released
    ensures OnDevice(tickets + [ticket], k) == OnDevice(tickets, k) + if k == ticket.device then {|tickets|} else {}
  {
    var more := tickets + [ticket];
    forall t: nat
      ensures t in OnDevice(more, k) <==> t in OnDevice(tickets, k) || (t == |tickets| && k == ticket.device) {
      assert t < |tickets| ==> more[t] == tickets[t];
    }
  }

  lemma NewTicket(tickets: seq<Ticket>, topic: string, device: string, k: string)
    ensures var more := tickets + [Ticket(topic, device, false)];
      && |OnTopic(more, k)| == |OnTopic(tickets, k)| + (if k == topic then 1 else 0)
      && |OnDevice(more, k)| == |OnDevice(tickets, k)| + (if k == device then 1 else 0)
  {
    NewOnTopic(tickets, Ticket(topic, device, false), k);
    NewOnDevice(tickets, Ticket(topic, device, false), k);
  }

  lemma ReleasedTicket(tickets: seq<Ticket>, t: nat, k: string)
    requires t < |tickets| && !tickets[t].released
    ensures var fewer := tickets[t := tickets[t].(released := true)];
      && |OnTopic(fewer, k)| == |OnTopic(tickets, k)| - (if k == tickets[t].topic then 1 else 0)
      && |OnDevice(fewer, k)| == |OnDevice(tickets, k)| - (if k == tickets[t].device then 1 else 0)
  {
    var fewer := tickets[t := tickets[t].(released := true)];
    assert OnTopic(fewer, k) == OnTopic(tickets, k) - {t};
    assert OnDevice(fewer, k) == OnDevice(tickets, k) - {t};
    assert k == tickets[t].topic ==> t in OnTopic(tickets, k);
    assert k == tickets[t].device ==> t in OnDevice(tickets, k);
  }

  lemma ReserveKeeps(s: State, topic: string, device: string)
    requires Exact(s) && WithinCaps(s)
    ensures Exact(ReserveStep(s, topic, device)) && WithinCaps(ReserveStep(s, topic, device))
  {
    var t := ReserveStep(s, topic, device);
    if t != s {
      forall k ensures CountOf(t.perTopic, k) == |OnTopic(t.tickets, k)|
               ensures k != "" ==> CountOf(t.perDevice, k) == |OnDevice(t.tickets, k)| {
        NewTicket(s.tickets, topic, device, k);
        assert CountOf(s.perTopic, k) == |OnTopic(s.tickets, k)|;
      }
      assert forall k :: CountOf(t.perTopic, k) == CountOf(s.perTopic, k) + if k == topic then 1 else 0;
      assert forall k :: CountOf(t.perDevice, k) == CountOf(s.perDevice, k) + if k == device && k != "" then 1 else 0;
    }
  }

  lemma ReleaseKeeps(s: State, t: nat)
    requires Exact(s) && WithinCaps(s) && t < |s.tickets|
    ensures Exact(ReleaseStep(s, t)) && WithinCaps(ReleaseStep(s, t))
  {
    var after := ReleaseStep(s, t);
    if !s.tickets[t].released {
      forall k ensures CountOf(after.perTopic, k) == |OnTopic(after.tickets, k)|
               ensures k != "" ==> CountOf(after.perDevice, k) == |OnDevice(after.tickets, k)| {
        ReleasedTicket(s.tickets, t, k);
        assert CountOf(s.perTopic, k) == |OnTopic(s.tickets, k)|;
      }
      assert forall k ::
          CountOf(after.perTopic, k) <= CountOf(s.perTopic, k)
          && CountOf(after.perDevice, k) <= CountOf(s.perDevice, k);
    }
  }

  /** Calling a release callback twice is calling it once. */
  lemma ReleaseIsIdempotent(s: State, t: nat)
    requires t < |s.tickets|
    ensures ReleaseStep(ReleaseStep(s, t), t) == ReleaseStep(s, t)
  {
  }

  /** Giving a fresh reservation back restores every counter. */
  lemma ReserveThenRelease(s: State, topic: string, device: string)
    requires Exact(s) && !TopicFull(s, topic) && !DeviceFull(s, device)
    ensures var after := ReleaseStep(ReserveStep(s, topic, device), |s.tickets|);
      after.perTopic == s.perTopic && after.perDevice == s.perDevice
  {
    var mid := ReserveStep(s, topic, device);
    assert mid.tickets[|s.tickets|] == Ticket(topic, device, false);
    assert Decrement(Increment(s.perTopic, topic), topic) == s.perTopic;
    if device != "" {
      assert Decrement(Increment(s.perDevice, device), device) == s.perDevice;
    }
  }

  // ---------------------------------------------------------------- requests

  /** Where a request is; its number is that of its ticket. */
  datatype Phase = Reserved | Streaming | Finished

  /** A subscriber the server attaches itself, without a reservation, to keep a topic's stream running. */
  datatype Keeper = Keeper(topic: string, client: string)

  datatype World<E> = World(hub: State, brokers: map<string, Broker.State<E>>, phases: seq<Phase>, clients: seq<string>,
                            keepers: set<Keeper>)

  /**
    Open: reserve, or answer 429.  Join: fetch or create the topic's broker and subscribe.
    Leave: unsubscribe.  Close: release, from any phase but Streaming.  Attach and Detach:
    a keeper of service/netstream/netstream.go comes and goes.  Inner: the broker's own
    snapshot, send and receive steps.
   */
  datatype Step<E> =
    | Open(topic: string, device: string, client: string)
    | Join(request: nat, startOk: bool)
    | Leave(request: nat)
    | Close(request: nat)
    | Attach(topic: string, client: string, startOk: bool)
    | Detach(topic: string, client: string)
    | Inner(topic: string, step: Broker.Step<E>)

  function BrokerOf<E>(w: World<E>, topic: string): Broker.State<E> {
    if topic in w.brokers then w.brokers[topic] else Broker.Initial()
  }

  ghost predicate Enabled<E>(w: World<E>, step: Step<E>) {
    match step
    case Open(_, _, _) => true
    case Join(r, _) => r < |w.phases| && r < |w.hub.tickets| && r < |w.clients| && w.phases[r].Reserved?
    case Leave(r) => r < |w.phases| && r < |w.hub.tickets| && r < |w.clients| && w.phases[r].Streaming?
    case Close(r) => r < |w.phases| && r < |w.hub.tickets| && !w.phases[r].Streaming?
    case Attach(_, _, _) => true
    case Detach(topic, client) => Keeper(topic, client) in w.keepers
    case Inner(topic, inner) =>
      (inner.Snapshot? || inner.Send? || inner.Receive?) && topic in w.brokers
          && Broker.Enabled(w.brokers[topic], inner)
  }

  ghost function Apply<E>(w: World<E>, step: Step<E>): World<E>
    requires Enabled(w, step)
  {
    match step
    case Open(topic, device, client) =>
      if TopicFull(w.hub, topic) || DeviceFull(w.hub, device) then w
      else w.(hub := ReserveStep(w.hub, topic, device), phases := w.phases + [Reserved],
          clients := w.clients + [client])
    case Join(r, startOk) =>
      var topic := w.hub.tickets[r].topic;
      var b := BrokerOf(w, topic);
      w.(brokers := w.brokers[topic := Broker.SubscribeStep(b, w.clients[r], startOk)],
         phases := w.phases[r := if b.started || startOk then Streaming else Finished])
    case Leave(r) =>
      var topic := w.hub.tickets[r].topic;
      w.(brokers := w.brokers[topic := Broker.UnsubscribeStep(BrokerOf(w, topic), w.clients[r])],
         phases := w.phases[r := Finished])
    case Close(r) => w.(hub := ReleaseStep(w.hub, r), phases := w.phases[r := Finished])
    case Attach(topic, client, startOk) =>
      var b := BrokerOf(w, topic);
      w.(brokers := w.brokers[topic := Broker.SubscribeStep(b, client, startOk)],
         keepers := if b.started || startOk then w.keepers + {Keeper(topic, client)} else w.keepers)
    case Detach(topic, client) =>
      w.(brokers := w.brokers[topic := Broker.UnsubscribeStep(BrokerOf(w, topic), client)],
         keepers := w.keepers - {Keeper(topic, client)})
    case Inner(topic, inner) => w.(brokers := w.brokers[topic := Broker.Apply(w.brokers[topic], inner)])
  }

  function Start<E>(maxPerTopic: int, maxPerDevice: int): World<E> {
    World(NewHub(maxPerTopic, maxPerDevice), map[], [], [], {})
  }

  ghost predicate IsTrace<E>(worlds: seq<World<E>>, steps: seq<Step<E>>, maxPerTopic: int, maxPerDevice: int) {
    && |worlds| == |steps| + 1 && worlds[0] == Start(maxPerTopic, maxPerDevice)
    && forall k :: 0 <= k < |steps| ==> Enabled(worlds[k], steps[k]) && worlds[k + 1] == Apply(worlds[k], steps[k])
  }

  /** Requests streaming on a topic under a client id. */
  ghost predicate HasStream<E>(w: World<E>, topic: string, client: string)
    requires |w.phases| == |w.hub.tickets| == |w.clients|
  {
    exists r :: 0 <= r < |w.phases| && w.phases[r].Streaming?
                && w.hub.tickets[r].topic == topic && w.clients[r] == client
  }

  ghost predicate Coherent<E>(w: World<E>) {
    && |w.phases| == |w.hub.tickets| == |w.clients|
    && (forall r :: 0 <= r < |w.phases| ==>
        (w.phases[r].Streaming? || w.phases[r].Reserved? ==> !w.hub.tickets[r].released))
    && (forall topic, client :: topic in w.brokers && client in w.brokers[topic].subs ==> IsHeld(w, topic, client))
    && (forall k :: k in w.keepers ==> IsKept(w, k))
  }

  /** A subscription belongs to a streaming request or to a keeper. */
  ghost predicate IsHeld<E>(w: World<E>, topic: string, client: string)
    requires |w.phases| == |w.hub.tickets| == |w.clients|
  {
    HasStream(w, topic, client) || Keeper(topic, client) in w.keepers
  }

  /** A keeper is subscribed, unless a request came under its client id, which then unsubscribes it too. */
  ghost predicate IsKept<E>(w: World<E>, k: Keeper)
    requires |w.phases| == |w.hub.tickets| == |w.clients|
  {
    k.client in BrokerOf(w, k.topic).subs || IsShadowed(w, k)
  }

  ghost predicate IsShadowed<E>(w: World<E>, k: Keeper)
    requires |w.phases| == |w.hub.tickets| == |w.clients|
  {
    exists r :: 0 <= r < |w.phases| && w.hub.tickets[r].topic == k.topic && w.clients[r] == k.client
  }

  ghost predicate Good<E>(w: World<E>) {
    Exact(w.hub) && WithinCaps(w.hub) && Coherent(w) && BrokersSafe(w)
  }

  /** Every broker of the hub is in a state its own steps can reach safely. */
  ghost predicate BrokersSafe<E>(w: World<E>) {
    forall topic :: topic in w.brokers ==> Broker.Safe(w.brokers[topic])
  }

  lemma SafeBroker<E>(w: World<E>, topic: string)
    requires BrokersSafe(w)
    ensures Broker.Safe(BrokerOf(w, topic))
  {
  }

  lemma SafeBrokerStep<E>(w: World<E>, topic: string, step: Broker.Step<E>)
    requires BrokersSafe(w) && Broker.Enabled(BrokerOf(w, topic), step)
    ensures Broker.Safe(Broker.Apply(BrokerOf(w, topic), step))
  {
    SafeBroker(w, topic);
    Broker.SafeStep(BrokerOf(w, topic), step);
  }

  lemma SafeStep<E>(w: World<E>, step: Step<E>)
    requires BrokersSafe(w) && Enabled(w, step)
    ensures BrokersSafe(Apply(w, step))
  {
    match step
    case Open(_, _, _) =>
    case Join(r, startOk) => SafeBrokerStep(w, w.hub.tickets[r].topic, Broker.Subscribe(w.clients[r], startOk));
    case Leave(r) => SafeBrokerStep(w, w.hub.tickets[r].topic, Broker.Unsubscribe(w.clients[r]));
    case Close(_) =>
    case Attach(topic, client, startOk) => SafeBrokerStep(w, topic, Broker.Subscribe(client, startOk));
    case Detach(topic, client) => SafeBrokerStep(w, topic, Broker.Unsubscribe(client));
    case Inner(topic, inner) => SafeBrokerStep(w, topic, inner);
  }

  lemma InnerKeepsSubs<E>(b: Broker.State<E>, inner: Broker.Step<E>)
    requires Broker.Enabled(b, inner) && (inner.Snapshot? || inner.Send? || inner.Receive?)
    ensures Broker.Apply(b, inner).subs == b.subs
  {
  }

  /** `after` has the requests of `w`, perhaps one more, on the same topics and under the same ids. */
  ghost predicate Extends<E>(w: World<E>, after: World<E>) {
    && |w.phases| == |w.hub.tickets| == |w.clients|
    && |after.phases| == |after.hub.tickets| == |after.clients| >= |w.phases|
    && (forall r :: 0 <= r < |w.phases| ==>
        after.hub.tickets[r].topic == w.hub.tickets[r].topic && after.clients[r] == w.clients[r])
  }

  /** A subscription stays held when neither its request nor its keeper goes. */
  lemma HeldSurvives<E>(w: World<E>, after: World<E>, topic: string, client: string, except: nat)
    requires Extends(w, after) && IsHeld(w, topic, client)
    requires forall r :: 0 <= r < |w.phases| && r != except && w.phases[r].Streaming? ==> after.phases[r].Streaming?
    requires except < |w.phases| ==> w.hub.tickets[except].topic != topic || w.clients[except] != client
    requires Keeper(topic, client) in w.keepers ==> Keeper(topic, client) in after.keepers
    ensures IsHeld(after, topic, client)
  {
    if HasStream(w, topic, client) {
      var r :| 0 <= r < |w.phases| && w.phases[r].Streaming?
               && w.hub.tickets[r].topic == topic && w.clients[r] == client;
      assert after.phases[r].Streaming?;
    }
  }

  lemma KeptSurvives<E>(w: World<E>, after: World<E>, k: Keeper)
    requires Extends(w, after) && IsKept(w, k)
    requires k.client in BrokerOf(w, k.topic).subs ==> k.client in BrokerOf(after, k.topic).subs || IsShadowed(after, k)
    ensures IsKept(after, k)
  {
    if IsShadowed(w, k) {
      var r :| 0 <= r < |w.phases| && w.hub.tickets[r].topic == k.topic && w.clients[r] == k.client;
      assert after.hub.tickets[r].topic == k.topic && after.clients[r] == k.client;
    }
  }

  lemma CoherentJoin<E>(w: World<E>, r: nat, startOk: bool)
    requires Coherent(w) && Enabled(w, Join(r, startOk))
    ensures Coherent(Apply(w, Join(r, startOk)))
  {
    var after, topic := Apply(w, Join(r, startOk)), w.hub.tickets[r].topic;
    forall t, c | t in after.brokers && c in after.brokers[t].subs ensures IsHeld(after, t, c) {
      if t == topic && c == w.clients[r] && after.phases[r].Streaming? {
        assert after.hub.tickets[r].topic == t;
      } else {
        HeldSurvives(w, after, t, c, |w.phases|);
      }
    }
    forall k | k in after.keepers ensures IsKept(after, k) {
      KeptSurvives(w, after, k);
    }
  }

  lemma CoherentLeave<E>(w: World<E>, r: nat)
    requires Coherent(w) && Enabled(w, Leave(r))
    ensures Coherent(Apply(w, Leave(r)))
  {
    var after, topic := Apply(w, Leave(r)), w.hub.tickets[r].topic;
    forall t, c | t in after.brokers && c in after.brokers[t].subs ensures IsHeld(after, t, c) {
      HeldSurvives(w, after, t, c, r);
    }
    forall k | k in after.keepers ensures IsKept(after, k) {
      if k == Keeper(topic, w.clients[r]) {
        assert after.hub.tickets[r].topic == k.topic && after.clients[r] == k.client;
      }
      KeptSurvives(w, after, k);
    }
  }

  lemma CoherentAttach<E>(w: World<E>, topic: string, client: string, startOk: bool)
    requires Coherent(w)
    ensures Coherent(Apply(w, Attach(topic, client, startOk)))
  {
    var after := Apply(w, Attach(topic, client, startOk));
    forall t, c | t in after.brokers && c in after.brokers[t].subs ensures IsHeld(after, t, c) {
      if Keeper(t, c) !in after.keepers {
        HeldSurvives(w, after, t, c, |w.phases|);
      }
    }
    forall k | k in after.keepers ensures IsKept(after, k) {
      if k in w.keepers {
        KeptSurvives(w, after, k);
      }
    }
  }

  lemma CoherentDetach<E>(w: World<E>, topic: string, client: string)
    requires Coherent(w) && Enabled(w, Detach(topic, client))
    ensures Coherent(Apply(w, Detach(topic, client)))
  {
    var after := Apply(w, Detach(topic, client));
    forall t, c | t in after.brokers && c in after.brokers[t].subs ensures IsHeld(after, t, c) {
      HeldSurvives(w, after, t, c, |w.phases|);
    }
    forall k | k in after.keepers ensures IsKept(after, k) {
      KeptSurvives(w, after, k);
    }
  }

  /** Steps that change no subscription and end no stream. */
  lemma CoherentElse<E>(w: World<E>, after: World<E>)
    requires Coherent(w) && Extends(w, after) && after.keepers == w.keepers
    requires forall r :: 0 <= r < |after.phases| ==>
               (after.phases[r].Streaming? || after.phases[r].Reserved? ==> !after.hub.tickets[r].released)
    requires forall r :: 0 <= r < |w.phases| && w.phases[r].Streaming? ==> after.phases[r].Streaming?
    requires after.brokers.Keys == w.brokers.Keys
    requires forall t :: t in w.brokers ==> after.brokers[t].subs == w.brokers[t].subs
    ensures Coherent(after)
  {
    forall t, c | t in after.brokers && c in after.brokers[t].subs ensures IsHeld(after, t, c) {
      HeldSurvives(w, after, t, c, |w.phases|);
    }
    forall k | k in after.keepers ensures IsKept(after, k) {
      KeptSurvives(w, after, k);
    }
  }

  lemma CountedOpen<E>(w: World<E>, topic: string, device: string, client: string)
    requires Exact(w.hub) && WithinCaps(w.hub) && Coherent(w)
    ensures var after := Apply(w, Open(topic, device, client));
      Exact(after.hub) && WithinCaps(after.hub) && Coherent(after)
  {
    ReserveKeeps(w.hub, topic, device);
    CoherentElse(w, Apply(w, Open(topic, device, client)));
  }

  lemma CountedClose<E>(w: World<E>, r: nat)
    requires Exact(w.hub) && WithinCaps(w.hub) && Coherent(w) && Enabled(w, Close(r))
    ensures var after := Apply(w, Close(r)); Exact(after.hub) && WithinCaps(after.hub) && Coherent(after)
  {
    ReleaseKeeps(w.hub, r);
    CoherentElse(w, Apply(w, Close(r)));
  }

  lemma CoherentInner<E>(w: World<E>, topic: string, inner: Broker.Step<E>)
    requires Coherent(w) && Enabled(w, Inner(topic, inner))
    ensures Coherent(Apply(w, Inner(topic, inner)))
  {
    InnerKeepsSubs(w.brokers[topic], inner);
    CoherentElse(w, Apply(w, Inner(topic, inner)));
  }

  lemma GoodStep<E>(w: World<E>, step: Step<E>)
    requires Good(w) && Enabled(w, step)
    ensures Good(Apply(w, step))
  {
    SafeStep(w, step);
    CountedStep(w, step);
  }

  lemma CountedStep<E>(w: World<E>, step: Step<E>)
    requires Exact(w.hub) && WithinCaps(w.hub) && Coherent(w) && Enabled(w, step)
    ensures var after := Apply(w, step); Exact(after.hub) && WithinCaps(after.hub) && Coherent(after)
  {
    match step
    case Join(r, startOk) => CoherentJoin(w, r, startOk);
    case Leave(r) => CoherentLeave(w, r);
    case Attach(topic, client, startOk) => CoherentAttach(w, topic, client, startOk);
    case Detach(topic, client) => CoherentDetach(w, topic, client);
    case Open(topic, device, client) => CountedOpen(w, topic, device, client);
    case Close(r) => CountedClose(w, r);
    case Inner(topic, inner) => CoherentInner(w, topic, inner);
  }

  lemma {:induction false} AlwaysGood<E>(worlds: seq<World<E>>, steps: seq<Step<E>>, maxPerTopic: int,
                                         maxPerDevice: int)
    requires IsTrace(worlds, steps, maxPerTopic, maxPerDevice)
    ensures Good(worlds[|steps|])
    ensures worlds[|steps|].hub.maxPerTopic == NewHub(maxPerTopic, maxPerDevice).maxPerTopic
    ensures worlds[|steps|].hub.maxPerDevice == NewHub(maxPerTopic, maxPerDevice).maxPerDevice
  {
    if steps == [] {
      assert forall k :: OnTopic([], k) == {} && OnDevice([], k) == {};
    } else {
      var m := |steps| - 1;
      AlwaysGood(worlds[..m + 1], steps[..m], maxPerTopic, maxPerDevice);
      GoodStep(worlds[m], steps[m]);
    }
  }

  lemma {:induction false} KeysFitTickets(clients: set<string>, tickets: set<nat>, owner: map<string, nat>)
    requires forall c :: c in clients ==> c in owner && owner[c] in tickets
    requires forall c, d :: c in clients && d in clients && c != d ==> owner[c] != owner[d]
    ensures |clients| <= |tickets|
  {
    if clients != {} {
      var c :| c in clients;
      KeysFitTickets(clients - {c}, tickets - {owner[c]}, owner);
    }
  }

  /** The client ids of the keepers of a topic. */
  ghost function KeepersOf<E>(w: World<E>, topic: string): set<string> {
    set k | k in w.keepers && k.topic == topic :: k.client
  }

  /**
    A topic never has more subscribers than unreleased reservations and attached keepers,
    shared client ids included.
   */
  lemma SubscribersFitReservations<E>(w: World<E>, topic: string)
    requires Good(w)
    ensures |BrokerOf(w, topic).subs| <= CountOf(w.hub.perTopic, topic) + |KeepersOf(w, topic)|
  {
    var subs := BrokerOf(w, topic).subs;
    var requested := subs.Keys - KeepersOf(w, topic);
    forall c | c in requested ensures HasStream(w, topic, c) {
      assert Keeper(topic, c) in w.keepers ==> c in KeepersOf(w, topic);
      assert IsHeld(w, topic, c);
    }
    var owner := map c | c in requested :: Owner(w, topic, c);
    KeysFitTickets(requested, OnTopic(w.hub.tickets, topic), owner);
    assert |subs| == |subs.Keys|;
    SplitBound(subs.Keys, KeepersOf(w, topic));
  }

  lemma SplitBound(all: set<string>, some: set<string>)
    ensures |all| <= |all - some| + |some|
  {
    assert all <= (all - some) + some;
    SubsetSize(all, (all - some) + some);
  }

  lemma SubsetSize(a: set<string>, b: set<string>)
    requires a <= b
    ensures |a| <= |b|
  {
    assert b == a + (b - a);
  }

  /** A request that holds a client's subscription. */
  ghost function Owner<E>(w: World<E>, topic: string, client: string): (r: nat)
    requires |w.phases| == |w.hub.tickets| == |w.clients| && HasStream(w, topic, client)
    ensures r < |w.phases| && w.phases[r].Streaming? && w.hub.tickets[r].topic == topic && w.clients[r] == client
  {
    var r :| 0 <= r < |w.phases| && w.phases[r].Streaming? && w.hub.tickets[r].topic == topic && w.clients[r] == client;
    r
  }

  /**
    Every interleaving of requests and keepers: the counters equal the unreleased
    reservations per topic and per device and none is zero, the caps hold for reservations,
    and a topic's subscribers fit its reservations and keepers.
   */
  lemma CapsHold<E>(worlds: seq<World<E>>, steps: seq<Step<E>>, maxPerTopic: int, maxPerDevice: int, topic: string,
                    device: string)
    requires IsTrace(worlds, steps, maxPerTopic, maxPerDevice)
    ensures var w := worlds[|steps|];
      && CountOf(w.hub.perTopic, topic) == |OnTopic(w.hub.tickets, topic)|
      && (device != "" ==> CountOf(w.hub.perDevice, device) == |OnDevice(w.hub.tickets, device)|)
      && (topic in w.hub.perTopic ==> w.hub.perTopic[topic] > 0)
      && (device in w.hub.perDevice ==> w.hub.perDevice[device] > 0)
      && |BrokerOf(w, topic).subs| <= |OnTopic(w.hub.tickets, topic)| + |KeepersOf(w, topic)|
      && (maxPerTopic > 0 ==> |OnTopic(w.hub.tickets, topic)| <= maxPerTopic)
      && (device != "" && maxPerDevice > 0 ==> |OnDevice(w.hub.tickets, device)| <= maxPerDevice)
  {
    AlwaysGood(worlds, steps, maxPerTopic, maxPerDevice);
    SubscribersFitReservations(worlds[|steps|], topic);
    assert CountOf(worlds[|steps|].hub.perTopic, topic) == |OnTopic(worlds[|steps|].hub.tickets, topic)|;
  }

  /**
    A reservation is refused for a cap only: in every interleaving a request gets its slot if
    and only if the unreleased reservations of its topic, and of its device if it names one,
    are below the caps; no cap is needed for one of zero or less.
   */
  lemma GrantedBelowCaps<E>(worlds: seq<World<E>>, steps: seq<Step<E>>, maxPerTopic: int, maxPerDevice: int,
                            topic: string, device: string, client: string)
    requires IsTrace(worlds, steps, maxPerTopic, maxPerDevice)
    ensures var w := worlds[|steps|];
      var room := (maxPerTopic <= 0 || |OnTopic(w.hub.tickets, topic)| < maxPerTopic)
        && (device == "" || maxPerDevice <= 0 || |OnDevice(w.hub.tickets, device)| < maxPerDevice);
      var after := Apply(w, Open(topic, device, client));
      if room then
        && after.hub.tickets == w.hub.tickets + [Ticket(topic, device, false)]
        && after.phases == w.phases + [Reserved] && after.clients == w.clients + [client]
        && CountOf(after.hub.perTopic, topic) == CountOf(w.hub.perTopic, topic) + 1
      else after == w
  {
    AlwaysGood(worlds, steps, maxPerTopic, maxPerDevice);
    var w := worlds[|steps|];
    assert CountOf(w.hub.perTopic, topic) == |OnTopic(w.hub.tickets, topic)|;
    assert device != "" ==> CountOf(w.hub.perDevice, device) == |OnDevice(w.hub.tickets, device)|;
  }

  /** No other request came under this one's client id on its topic, and no keeper was detached under it. */
  ghost predicate OwnsId<E>(w: World<E>, steps: seq<Step<E>>, r: nat)
    requires r < |w.phases| == |w.hub.tickets| == |w.clients|
  {
    && (forall other :: 0 <= other < |w.phases| && other != r ==>
          w.hub.tickets[other].topic != w.hub.tickets[r].topic || w.clients[other] != w.clients[r])
    && (forall k :: 0 <= k < |steps| ==> steps[k] != Detach(w.hub.tickets[r].topic, w.clients[r]))
  }

  /** A streaming request whose client id is its own is subscribed, whatever the others do. */
  lemma {:induction false} StreamingIsSubscribed<E>(worlds: seq<World<E>>, steps: seq<Step<E>>,
                                                    maxPerTopic: int, maxPerDevice: int, r: nat)
    requires IsTrace(worlds, steps, maxPerTopic, maxPerDevice)
    requires var w := worlds[|steps|]; r < |w.phases| == |w.hub.tickets| == |w.clients| && w.phases[r].Streaming?
    requires OwnsId(worlds[|steps|], steps, r)
    ensures var w := worlds[|steps|]; w.clients[r] in BrokerOf(w, w.hub.tickets[r].topic).subs
  {
    if steps != [] {
      var m := |steps| - 1;
      var before, after := worlds[m], worlds[m + 1];
      AlwaysGood(worlds[..m + 1], steps[..m], maxPerTopic, maxPerDevice);
      StepExtends(before, steps[m]);
      if r < |before.phases| && before.phases[r].Streaming? {
        OwnsIdBefore(before, after, steps, r);
        StreamingIsSubscribed(worlds[..m + 1], steps[..m], maxPerTopic, maxPerDevice, r);
        StaysSubscribed(before, steps[m], steps, r);
      } else {
        JustJoined(before, steps[m], r);
      }
    }
  }

  lemma JustJoined<E>(w: World<E>, step: Step<E>, r: nat)
    requires Coherent(w) && Enabled(w, step)
    requires r < |Apply(w, step).phases| && Apply(w, step).phases[r].Streaming?
    requires r >= |w.phases| || !w.phases[r].Streaming?
    ensures var after := Apply(w, step);
      && r < |after.hub.tickets| && r < |after.clients|
      && after.clients[r] in BrokerOf(after, after.hub.tickets[r].topic).subs
  {
    assert step.Join? && step.request == r;
  }

  lemma StepExtends<E>(w: World<E>, step: Step<E>)
    requires Coherent(w) && Enabled(w, step)
    ensures Extends(w, Apply(w, step))
  {
  }

  lemma OwnsIdBefore<E>(before: World<E>, after: World<E>, steps: seq<Step<E>>, r: nat)
    requires Extends(before, after) && r < |before.phases| && steps != [] && OwnsId(after, steps, r)
    ensures OwnsId(before, steps[..|steps| - 1], r)
  {
    var earlier := steps[..|steps| - 1];
    forall k | 0 <= k < |earlier|
      ensures earlier[k] != Detach(before.hub.tickets[r].topic, before.clients[r]) {
      assert steps[k] != Detach(after.hub.tickets[r].topic, after.clients[r]);
    }
    forall other | 0 <= other < |before.phases| && other != r
      ensures before.hub.tickets[other].topic != before.hub.tickets[r].topic
           || before.clients[other] != before.clients[r] {
      assert after.hub.tickets[other].topic != after.hub.tickets[r].topic || after.clients[other] != after.clients[r];
    }
  }

  lemma StaysSubscribed<E>(w: World<E>, step: Step<E>, steps: seq<Step<E>>, r: nat)
    requires Coherent(w) && Enabled(w, step) && steps != [] && step == steps[|steps| - 1]
    requires r < |w.phases| && Extends(w, Apply(w, step)) && OwnsId(Apply(w, step), steps, r)
    requires Apply(w, step).phases[r].Streaming? && w.phases[r].Streaming?
    requires w.clients[r] in BrokerOf(w, w.hub.tickets[r].topic).subs
    ensures w.clients[r] in BrokerOf(Apply(w, step), w.hub.tickets[r].topic).subs
  {
    if step.Inner? {
      InnerKeepsSubs(w.brokers[step.topic], step.step);
    } else if step.Leave? {
      assert step.request != r;
      assert w.hub.tickets[step.request].topic != w.hub.tickets[r].topic || w.clients[step.request] != w.clients[r];
    }
  }

  /** No request ever came under a keeper's client id on its topic. */
  ghost predicate OwnIds<E>(w: World<E>) {
    forall r, k :: 0 <= r < |w.phases| && r < |w.hub.tickets| && r < |w.clients| && k in w.keepers ==>
      w.hub.tickets[r].topic != k.topic || w.clients[r] != k.client
  }

  /** Some step of the run closed the request. */
  ghost predicate IsClosed<E>(steps: seq<Step<E>>, r: nat) {
    exists k :: 0 <= k < |steps| && steps[k] == Close(r)
  }

  /** A closed request has given its reservation back, for good. */
  lemma {:induction false} ClosedIsReleased<E>(worlds: seq<World<E>>, steps: seq<Step<E>>,
                                               maxPerTopic: int, maxPerDevice: int, r: nat)
    requires IsTrace(worlds, steps, maxPerTopic, maxPerDevice) && IsClosed(steps, r)
    ensures var tickets := worlds[|steps|].hub.tickets; r < |tickets| && tickets[r].released
  {
    var m := |steps| - 1;
    if steps[m] != Close(r) {
      var k :| 0 <= k < |steps| && steps[k] == Close(r);
      assert steps[..m][k] == Close(r);
      ClosedIsReleased(worlds[..m + 1], steps[..m], maxPerTopic, maxPerDevice, r);
    }
    ReleasedStays(worlds[m], steps[m], r);
  }

  lemma ReleasedStays<E>(w: World<E>, step: Step<E>, r: nat)
    requires Enabled(w, step)
    requires step == Close(r) || (r < |w.hub.tickets| && w.hub.tickets[r].released)
    ensures var tickets := Apply(w, step).hub.tickets; r < |tickets| && tickets[r].released
  {
  }

  /**
    When every request has been closed, no counter is left, and of the subscribers
    at most the keepers; exactly the keepers, unless a request used a keeper's client id.
    A topic without keepers has its backend stream stopped.
   */
  lemma NoLeaks<E>(worlds: seq<World<E>>, steps: seq<Step<E>>, maxPerTopic: int, maxPerDevice: int, topic: string)
    requires IsTrace(worlds, steps, maxPerTopic, maxPerDevice)
    requires forall r :: 0 <= r < |worlds[|steps|].hub.tickets| ==> IsClosed(steps, r)
    ensures var w := worlds[|steps|];
      && w.hub.perTopic == map[] && w.hub.perDevice == map[]
      && BrokerOf(w, topic).subs.Keys <= KeepersOf(w, topic)
      && (OwnIds(w) ==> BrokerOf(w, topic).subs.Keys == KeepersOf(w, topic))
      && (KeepersOf(w, topic) == {} ==> !BrokerOf(w, topic).started)
  {
    AlwaysGood(worlds, steps, maxPerTopic, maxPerDevice);
    var w := worlds[|steps|];
    forall r | 0 <= r < |w.hub.tickets| ensures w.hub.tickets[r].released {
      ClosedIsReleased(worlds, steps, maxPerTopic, maxPerDevice, r);
    }
    forall k ensures k !in w.hub.perTopic && k !in w.hub.perDevice {
      assert OnTopic(w.hub.tickets, k) == {} && OnDevice(w.hub.tickets, k) == {};
      assert CountOf(w.hub.perTopic, k) == |OnTopic(w.hub.tickets, k)|;
      if k != "" {
        assert CountOf(w.hub.perDevice, k) == |OnDevice(w.hub.tickets, k)|;
      }
    }
    forall c | c in BrokerOf(w, topic).subs ensures c in KeepersOf(w, topic) {
      assert IsHeld(w, topic, c);
      assert Keeper(topic, c) in w.keepers;
    }
    SafeBroker(w, topic);
    if KeepersOf(w, topic) == {} {
      assert BrokerOf(w, topic).subs == map[];
    }
    if OwnIds(w) {
      forall c | c in KeepersOf(w, topic) ensures c in BrokerOf(w, topic).subs {
        assert IsKept(w, Keeper(topic, c));
      }
    }
  }

  /** With a keeper attached, a topic has a subscriber and no reservation at all. */
  lemma KeeperNeedsNoReservation<E>(topic: string, client: string) returns (worlds: seq<World<E>>, steps: seq<Step<E>>)
    ensures IsTrace(worlds, steps, 1, 1)
    ensures var w := worlds[|steps|]; |BrokerOf(w, topic).subs| == 1 && CountOf(w.hub.perTopic, topic) == 0
  {
    steps := [Attach(topic, client, true)];
    worlds := [Start(1, 1), Apply(Start(1, 1), steps[0])];
  }
}
