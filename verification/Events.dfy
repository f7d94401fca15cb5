/** The event hub (internal/service/events.go): bounded queues per subscriber, closed when a consumer falls behind. */
module Events {
  import opened Cardinality

  const MAX_SUBSCRIPTIONS := 3
  const QUEUE_SIZE := 32

  datatype Event = Event(kind: string, device: string, session: string, version: int, groupRevision: int,
                         serverTimeMs: int)

  /** Stands for a reference to a subscriber. */
  newtype Handle = x: int | x >= 0

  /** A subscriber with its channel: `closed` is the flag, `shut` the state of the channel itself. */
  datatype Subscriber = Subscriber(device: string, queue: seq<Event>, closed: bool, shut: bool)

  datatype Hub = Hub(subscribers: map<string, set<Handle>>, channels: map<Handle, Subscriber>)

  // Sending panics on a closed channel and would block on a full one.
  function Send(s: Subscriber, e: Event): Subscriber
    requires !s.shut && |s.queue| < QUEUE_SIZE
  {
    s.(queue := s.queue + [e])
  }

  // Closing panics on a closed channel.
  function Close(s: Subscriber): Subscriber
    requires !s.shut
  {
    s.(closed := true, shut := true)
  }

  function Of(subscribers: map<string, set<Handle>>, d: string): set<Handle> {
    if d in subscribers then subscribers[d] else {}
  }

  function Put(subscribers: map<string, set<Handle>>, d: string, handles: set<Handle>): map<string, set<Handle>> {
    if handles == {} then subscribers - {d} else subscribers[d := handles]
  }

  /** A device lists exactly its open subscribers, at most three; no list is empty; the flag is the state of the
      channel; no queue is over its size. */
  ghost predicate HubOk(hub: Hub) {
    && (forall d :: d in hub.subscribers ==> hub.subscribers[d] != {} && |hub.subscribers[d]| <= MAX_SUBSCRIPTIONS)
    && (forall d, h :: h in Of(hub.subscribers, d) <==> OpenFor(hub.channels, d, h))
    && (forall h :: h in hub.channels ==> ChannelOk(hub.channels[h]))
  }

  predicate OpenFor(channels: map<Handle, Subscriber>, d: string, h: Handle) {
    h in channels && channels[h].device == d && !channels[h].closed
  }

  predicate ChannelOk(s: Subscriber) {
    (s.closed <==> s.shut) && |s.queue| <= QUEUE_SIZE
  }

  // ---- the four operations on values ----

  function Subscribed(hub: Hub, d: string, h: Handle): (Hub, bool) {
    if |Of(hub.subscribers, d)| >= MAX_SUBSCRIPTIONS then (hub, false)
    else (Hub(hub.subscribers[d := Of(hub.subscribers, d) + {h}], hub.channels[h := Subscriber(d, [], false, false)]),
          true)
  }

  // closeSubscriberLocked
  function Dropped(hub: Hub, h: Handle): Hub {
    if h !in hub.channels || hub.channels[h].closed || hub.channels[h].shut then hub
    else
      var d := hub.channels[h].device;
      Hub(Put(hub.subscribers, d, Of(hub.subscribers, d) - {h}), hub.channels[h := Close(hub.channels[h])])
  }

  /** One subscriber's share of a publication: the event, or the end of the stream when the queue is full. */
  function Offer(s: Subscriber, e: Event): Subscriber {
    if s.shut then s else if |s.queue| < QUEUE_SIZE then Send(s, e) else Close(s)
  }

  /** The subscribers of d that cannot take another event. */
  function Full(hub: Hub, d: string): set<Handle> {
    set h | h in Of(hub.subscribers, d) && h in hub.channels && |hub.channels[h].queue| >= QUEUE_SIZE
  }

  function PublishedTo(hub: Hub, d: string, e: Event): Hub {
    Hub(Put(hub.subscribers, d, Of(hub.subscribers, d) - Full(hub, d)),
        map h | h in hub.channels :: if h in Of(hub.subscribers, d) then Offer(hub.channels[h], e) else hub.channels[h])
  }

  function Published(hub: Hub, devices: seq<string>, e: Event): Hub
    decreases |devices|
  {
    if devices == [] then hub
    else PublishedTo(Published(hub, devices[..|devices| - 1], e), devices[|devices| - 1], e)
  }

  // A receive takes the oldest queued event; a closed channel still hands out what it holds.
  function Received(hub: Hub, h: Handle): (Hub, seq<Event>) {
    if h !in hub.channels || hub.channels[h].queue == [] then (hub, [])
    else
      (hub.(channels := hub.channels[h := hub.channels[h].(queue := hub.channels[h].queue[1..])]),
       [hub.channels[h].queue[0]])
  }

  /** One subscriber taken care of. */
  function Delivered(hub: Hub, h: Handle, e: Event): Hub
    requires h in hub.channels && !hub.channels[h].shut
  {
    if |hub.channels[h].queue| < QUEUE_SIZE
    then hub.(channels := hub.channels[h := Send(hub.channels[h], e)])
    else Dropped(hub, h)
  }

  // Those of `done` that could not take the event are listed no more.
  function Delisted(hub: Hub, d: string, done: set<Handle>): map<string, set<Handle>> {
    var full := done * Full(hub, d);
    if full == {} then hub.subscribers else Put(hub.subscribers, d, Of(hub.subscribers, d) - full)
  }

  /** The publication to d once the subscribers in `done` have been taken care of. */
  function PartlyPublished(hub: Hub, d: string, e: Event, done: set<Handle>): Hub {
    Hub(Delisted(hub, d, done),
        map h | h in hub.channels :: if h in done then Offer(hub.channels[h], e) else hub.channels[h])
  }

  // ---- what each keeps ----

  lemma SubscribeKeepsHub(hub: Hub, d: string, h: Handle)
    requires HubOk(hub) && h !in hub.channels
    ensures HubOk(Subscribed(hub, d, h).0)
  {
    var after := Subscribed(hub, d, h).0;
    forall x, k ensures k in Of(after.subscribers, x) <==> OpenFor(after.channels, x, k) {
      assert k in Of(hub.subscribers, x) <==> OpenFor(hub.channels, x, k);
    }
    assert !OpenFor(hub.channels, d, h);
  }

  lemma DropKeepsHub(hub: Hub, h: Handle)
    requires HubOk(hub)
    ensures HubOk(Dropped(hub, h))
  {
    DropKeepsLists(hub, h);
    DropKeepsChannels(hub, h);
    if h in hub.channels {
      var d := hub.channels[h].device;
      SubsetCard(Of(hub.subscribers, d) - {h}, Of(hub.subscribers, d));
    }
    hide OpenFor, ChannelOk;
  }

  lemma DropKeepsLists(hub: Hub, h: Handle)
    requires HubOk(hub)
    ensures var after := Dropped(hub, h);
            forall x, k :: k in Of(after.subscribers, x) <==> OpenFor(after.channels, x, k)
  {
    hide ChannelOk;
    var after := Dropped(hub, h);
    forall x, k ensures k in Of(after.subscribers, x) <==> OpenFor(after.channels, x, k) {
      assert k in Of(hub.subscribers, x) <==> OpenFor(hub.channels, x, k);
    }
  }

  lemma DropKeepsChannels(hub: Hub, h: Handle)
    requires HubOk(hub)
    ensures var after := Dropped(hub, h); forall k :: k in after.channels ==> ChannelOk(after.channels[k])
  {
    hide OpenFor, Of, Put;
  }

  lemma PublishToKeepsHub(hub: Hub, d: string, e: Event)
    requires HubOk(hub)
    ensures HubOk(PublishedTo(hub, d, e))
  {
    SubsetCard(Of(hub.subscribers, d) - Full(hub, d), Of(hub.subscribers, d));
    PublishKeepsLists(hub, d, e);
    PublishKeepsChannels(hub, d, e);
    hide Full, OpenFor, ChannelOk;
    assert d !in hub.subscribers ==> Of(hub.subscribers, d) == {};
  }

  lemma PublishKeepsLists(hub: Hub, d: string, e: Event)
    requires HubOk(hub)
    ensures var after := PublishedTo(hub, d, e);
            forall x, h :: h in Of(after.subscribers, x) <==> OpenFor(after.channels, x, h)
  {
    var after := PublishedTo(hub, d, e);
    forall x, h ensures h in Of(after.subscribers, x) <==> OpenFor(after.channels, x, h) {
      assert h in Of(hub.subscribers, x) <==> OpenFor(hub.channels, x, h);
    }
  }

  lemma PublishKeepsChannels(hub: Hub, d: string, e: Event)
    requires HubOk(hub)
    ensures var after := PublishedTo(hub, d, e); forall h :: h in after.channels ==> ChannelOk(after.channels[h])
  {
    hide OpenFor, Full;
  }

  lemma {:induction false} PublishKeepsHub(hub: Hub, devices: seq<string>, e: Event)
    requires HubOk(hub)
    ensures HubOk(Published(hub, devices, e)) && Published(hub, devices, e).channels.Keys == hub.channels.Keys
    decreases |devices|
  {
    hide HubOk;
    if devices != [] {
      PublishKeepsHub(hub, devices[..|devices| - 1], e);
      PublishToKeepsHub(Published(hub, devices[..|devices| - 1], e), devices[|devices| - 1], e);
    }
  }

  lemma ReceiveKeepsHub(hub: Hub, h: Handle)
    requires HubOk(hub)
    ensures HubOk(Received(hub, h).0)
  {
    var after := Received(hub, h).0;
    forall x, k ensures k in Of(after.subscribers, x) <==> OpenFor(after.channels, x, k) {
      assert OpenFor(after.channels, x, k) <==> OpenFor(hub.channels, x, k);
    }
  }

  lemma DeliverKeepsHub(hub: Hub, h: Handle, e: Event)
    requires HubOk(hub) && h in hub.channels && !hub.channels[h].shut
    ensures HubOk(Delivered(hub, h, e))
  {
    DropKeepsHub(hub, h);
    hide Dropped;
    if |hub.channels[h].queue| < QUEUE_SIZE {
      var s := Send(hub.channels[h], e);
      forall d, x ensures x in Of(hub.subscribers, d) <==> OpenFor(hub.channels[h := s], d, x) {
        assert OpenFor(hub.channels[h := s], d, x) <==> OpenFor(hub.channels, d, x);
      }
    }
  }

  lemma ListedIsOpen(hub: Hub, h: Handle)
    requires HubOk(hub) && h in hub.channels
    ensures hub.channels[h].closed <==> hub.channels[h].shut
    ensures !hub.channels[h].closed ==>
              hub.channels[h].device in hub.subscribers && h in hub.subscribers[hub.channels[h].device]
  {
    assert h in Of(hub.subscribers, hub.channels[h].device) <==> OpenFor(hub.channels, hub.channels[h].device, h);
  }

  lemma NothingDelivered(hub: Hub, d: string, e: Event)
    ensures PartlyPublished(hub, d, e, {}) == hub
  {
  }

  lemma OneMoreDelivered(hub: Hub, d: string, e: Event, done: set<Handle>, h: Handle)
    requires HubOk(hub) && h in Of(hub.subscribers, d) && h !in done && done <= Of(hub.subscribers, d)
    ensures var part := PartlyPublished(hub, d, e, done);
            && h in part.channels && part.channels[h] == hub.channels[h]
            && !hub.channels[h].closed && !hub.channels[h].shut
            && Delivered(part, h, e) == PartlyPublished(hub, d, e, done + {h})
  {
    var part := PartlyPublished(hub, d, e, done);
    var next := PartlyPublished(hub, d, e, done + {h});
    assert h in Of(hub.subscribers, d) <==> OpenFor(hub.channels, d, h);
    assert ChannelOk(hub.channels[h]);
    OneMoreDelisted(hub, d, done, h);
    hide HubOk, Of, Put;
    assert next.channels == part.channels[h := Offer(hub.channels[h], e)];
  }

  /** The lists of a partial publication, once h is taken care of as well. */
  lemma OneMoreDelisted(hub: Hub, d: string, done: set<Handle>, h: Handle)
    requires h in Of(hub.subscribers, d) && h !in done && done <= Of(hub.subscribers, d) && h in hub.channels
    ensures var part := Delisted(hub, d, done);
            Delisted(hub, d, done + {h})
            == if |hub.channels[h].queue| < QUEUE_SIZE then part else Put(part, d, Of(part, d) - {h})
  {
    var full := Full(hub, d);
    var part := Delisted(hub, d, done);
    if h in full {
      assert (done + {h}) * full == done * full + {h};
      assert Of(part, d) == Of(hub.subscribers, d) - done * full;
      assert Of(part, d) - {h} == Of(hub.subscribers, d) - (done * full + {h});
    } else {
      assert (done + {h}) * full == done * full;
    }
  }

  lemma AllDelivered(hub: Hub, d: string, e: Event, done: set<Handle>)
    requires HubOk(hub) && done == Of(hub.subscribers, d)
    ensures PartlyPublished(hub, d, e, done) == PublishedTo(hub, d, e)
  {
    assert done * Full(hub, d) == Full(hub, d);
    if Full(hub, d) == {} && d in hub.subscribers { assert Of(hub.subscribers, d) - {} == hub.subscribers[d]; }
  }

  // ---- the code ----

  class EventHub {
    var subscribers: map<string, set<Handle>>
    var channels: map<Handle, Subscriber>

    ghost function Value(): Hub
      reads this
    {
      Hub(subscribers, channels)
    }

    ghost predicate Valid()
      reads this
    {
      HubOk(Value())
    }

    constructor ()
      ensures Value() == Hub(map[], map[]) && Valid()
    {
      subscribers, channels := map[], map[];
    }

    method Subscribe(d: string, h: Handle) returns (ok: bool)
      requires Valid() && h !in channels
      modifies this
      ensures Valid() && (Value(), ok) == Subscribed(old(Value()), d, h)
      ensures ok <==> d !in old(subscribers) || |old(subscribers)[d]| < 3
    {
      hide HubOk;
      SubscribeKeepsHub(Value(), d, h);
      ghost var target := Subscribed(Value(), d, h);
      if d in subscribers && |subscribers[d]| >= MAX_SUBSCRIPTIONS { return false; }
      channels := channels[h := Subscriber(d, [], false, false)];
      if d !in subscribers { subscribers := subscribers[d := {}]; }
      subscribers := subscribers[d := subscribers[d] + {h}];
      assert subscribers == target.0.subscribers;
      return true;
    }

    // The cancel function that Subscribe returns is a call of this one.
    method CloseSubscriberLocked(h: Handle)
      requires Valid() && h in channels
      modifies this
      ensures Valid() && Value() == Dropped(old(Value()), h)
    {
      hide HubOk;
      DropKeepsHub(Value(), h);
      ListedIsOpen(Value(), h);
      ghost var target := Dropped(Value(), h);
      if channels[h].closed { return; }
      var d := channels[h].device;
      channels := channels[h := channels[h].(closed := true)];
      subscribers := subscribers[d := subscribers[d] - {h}];
      if subscribers[d] == {} { subscribers := subscribers - {d}; }
      channels := channels[h := Close(channels[h])];
      assert subscribers == target.subscribers && channels == target.channels;
    }

    // `select { case sub.events <- event: default: closeSubscriberLocked(sub) }`
    method Deliver(h: Handle, e: Event)
      requires Valid() && h in channels && !channels[h].closed
      modifies this
      ensures Valid() && Value() == Delivered(old(Value()), h, e)
    {
      hide HubOk;
      ListedIsOpen(Value(), h);
      DeliverKeepsHub(Value(), h, e);
      if |channels[h].queue| < QUEUE_SIZE {
        channels := channels[h := Send(channels[h], e)];
      } else {
        CloseSubscriberLocked(h);
      }
    }

    method PublishOne(d: string, e: Event)
      requires Valid()
      modifies this
      ensures Valid() && Value() == PublishedTo(old(Value()), d, e)
    {
      hide HubOk, Delivered, PartlyPublished, PublishedTo;
      ghost var was := Value();
      var rest := if d in subscribers then subscribers[d] else {};
      ghost var done: set<Handle> := {};
      NothingDelivered(was, d, e);
      while rest != {}
        invariant Valid() && done + rest == Of(was.subscribers, d) && done !! rest
        invariant Value() == PartlyPublished(was, d, e, done)
        decreases |rest|
      {
        var h :| h in rest;
        OneMoreDelivered(was, d, e, done, h);
        Deliver(h, e);
        done, rest := done + {h}, rest - {h};
      }
      AllDelivered(was, d, e, done);
    }

    method Publish(devices: seq<string>, e: Event)
      requires Valid()
      modifies this
      ensures Valid() && Value() == Published(old(Value()), devices, e)
    {
      ghost var was := Value();
      for i := 0 to |devices|
        invariant Valid() && Value() == Published(was, devices[..i], e)
      {
        assert devices[..i + 1][..i] == devices[..i];
        PublishOne(devices[i], e);
      }
      assert devices[..|devices|] == devices;
    }

    method Receive(h: Handle) returns (events: seq<Event>)
      requires Valid()
      modifies this
      ensures Valid() && (Value(), events) == Received(old(Value()), h)
    {
      ReceiveKeepsHub(Value(), h);
      if h !in channels || channels[h].queue == [] { return []; }
      events := [channels[h].queue[0]];
      channels := channels[h := channels[h].(queue := channels[h].queue[1..])];
    }
  }
}
