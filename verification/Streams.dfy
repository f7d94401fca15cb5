/** Event streams over whole runs of the hub: no gaps, no reordering, no delivery after the end. */
module Streams {
  import opened Events

  datatype Call =
    | Subscribe(device: string, handle: Handle)
    | Cancel(handle: Handle)
    | Publish(devices: seq<string>, event: Event)
    | Receive(handle: Handle)

  const EMPTY_HUB := Hub(map[], map[])

  function Apply(hub: Hub, call: Call): Hub {
    match call
    case Subscribe(d, h) => if h in hub.channels then hub else Subscribed(hub, d, h).0   // references are fresh
    case Cancel(h) => Dropped(hub, h)
    case Publish(devices, e) => Published(hub, devices, e)
    case Receive(h) => Received(hub, h).0
  }

  function Run(calls: seq<Call>): Hub
    decreases |calls|
  {
    if calls == [] then EMPTY_HUB else Apply(Run(calls[..|calls| - 1]), calls[|calls| - 1])
  }

  function Count(devices: seq<string>, d: string): nat
    decreases |devices|
  {
    if devices == [] then 0 else Count(devices[..|devices| - 1], d) + if devices[|devices| - 1] == d then 1 else 0
  }

  function Copies(e: Event, n: nat): seq<Event> {
    if n == 0 then [] else Copies(e, n - 1) + [e]
  }

  /** Every event published to h's device since h subscribed, in order; a device named twice gets the event twice. */
  function Sent(calls: seq<Call>, h: Handle): seq<Event>
    decreases |calls|
  {
    if calls == [] then []
    else
      var before, last := calls[..|calls| - 1], calls[|calls| - 1];
      var hub := Run(before);
      Sent(before, h)
      + if last.Publish? && h in hub.channels
        then Copies(last.event, Count(last.devices, hub.channels[h].device)) else []
  }

  /** Every event that h's consumer has received, in order. */
  function Consumed(calls: seq<Call>, h: Handle): seq<Event>
    decreases |calls|
  {
    if calls == [] then []
    else
      var before, last := calls[..|calls| - 1], calls[|calls| - 1];
      Consumed(before, h) + if last == Receive(h) then Received(Run(before), h).1 else []
  }

  /** What one publication to one device does to h. */
  lemma OneDelivery(hub: Hub, d: string, e: Event, h: Handle)
    requires HubOk(hub) && h in hub.channels
    ensures var s, t := hub.channels[h], PublishedTo(hub, d, e).channels[h];
            && t.device == s.device
            && (s.closed || s.device != d ==> t == s)
            && (!s.closed && s.device == d && !t.closed ==> t.queue == s.queue + [e])
            && (!s.closed && t.closed ==> t.queue == s.queue && |t.queue| == QUEUE_SIZE)
  {
    assert h in Of(hub.subscribers, d) <==> OpenFor(hub.channels, d, h);
    assert ChannelOk(hub.channels[h]);
    hide HubOk, Full;
  }

  lemma {:induction false} CopiesPrefix(e: Event, m: nat, n: nat)
    requires m <= n
    ensures Copies(e, m) <= Copies(e, n)
  {
    if m < n { CopiesPrefix(e, m, n - 1); }
  }

  /** A publication appends the event once per mention of the device; a stream that it ends is left with a full
      queue. */
  lemma {:induction false} Delivery(hub: Hub, devices: seq<string>, e: Event, h: Handle) returns (n: nat)
    requires HubOk(hub) && h in hub.channels
    ensures h in Published(hub, devices, e).channels
    ensures var s, t := hub.channels[h], Published(hub, devices, e).channels[h];
            && t.device == s.device && t.queue == s.queue + Copies(e, n) && n <= Count(devices, s.device)
            && (!t.closed ==> !s.closed && n == Count(devices, s.device))
            && (s.closed ==> t.closed && n == 0)
            && (!s.closed && t.closed ==> |t.queue| == QUEUE_SIZE && n < Count(devices, s.device))
    decreases |devices|
  {
    hide HubOk, PublishedTo;
    if devices == [] {
      n := 0;
    } else {
      var before, d := devices[..|devices| - 1], devices[|devices| - 1];
      var mid := Published(hub, before, e);
      n := Delivery(hub, before, e, h);
      PublishKeepsHub(hub, before, e);
      PublishKeepsHub(hub, devices, e);
      OneDelivery(mid, d, e, h);
      if !mid.channels[h].closed && d == mid.channels[h].device && !Published(hub, devices, e).channels[h].closed {
        n := n + 1;
      }
    }
  }

  lemma ApplyKeepsHub(hub: Hub, call: Call)
    requires HubOk(hub)
    ensures HubOk(Apply(hub, call))
  {
    hide HubOk, Subscribed, Dropped, Received, Published;
    match call
    case Subscribe(d, h) => if h !in hub.channels { SubscribeKeepsHub(hub, d, h); }
    case Cancel(h) => DropKeepsHub(hub, h);
    case Publish(devices, e) => PublishKeepsHub(hub, devices, e);
    case Receive(h) => ReceiveKeepsHub(hub, h);
  }

  /** In every state queues hold at most 32 events, a device has at most three subscribers, and exactly the open
      ones are listed. A delivery or a close therefore always meets an open channel: Send and Close require it. */
  lemma {:induction false} RunKeepsHub(calls: seq<Call>)
    ensures HubOk(Run(calls))
    decreases |calls|
  {
    if calls != [] {
      RunKeepsHub(calls[..|calls| - 1]);
      ApplyKeepsHub(Run(calls[..|calls| - 1]), calls[|calls| - 1]);
      hide HubOk, Apply;
    }
  }

  ghost predicate StreamOk(s: Subscriber, sent: seq<Event>, consumed: seq<Event>) {
    if s.closed then consumed + s.queue <= sent else consumed + s.queue == sent
  }

  lemma {:induction false} NotYetSubscribed(calls: seq<Call>, h: Handle)
    requires h !in Run(calls).channels
    ensures Sent(calls, h) == [] && Consumed(calls, h) == []
    decreases |calls|
  {
    if calls != [] {
      var before, last := calls[..|calls| - 1], calls[|calls| - 1];
      StaysSubscribed(before, last, h);
      NotYetSubscribed(before, h);
    }
  }

  lemma StaysSubscribed(before: seq<Call>, last: Call, h: Handle)
    ensures h in Run(before).channels ==> h in Apply(Run(before), last).channels
  {
    if h in Run(before).channels && last.Publish? {
      RunKeepsHub(before);
      var _ := Delivery(Run(before), last.devices, last.event, h);
    }
    hide Run;
  }

  lemma StartOfStream(before: seq<Call>, last: Call, h: Handle)
    requires h !in Run(before).channels && h in Apply(Run(before), last).channels
    ensures last.Subscribe? && Apply(Run(before), last).channels[h] == Subscriber(last.device, [], false, false)
  {
    RunKeepsHub(before);
    var hub := Run(before);
    hide Run, HubOk, Published;
    if last.Publish? { PublishKeepsHub(hub, last.devices, last.event); }
  }

  lemma PublishKeepsStream(hub: Hub, devices: seq<string>, e: Event, h: Handle, sent: seq<Event>, consumed: seq<Event>)
    requires HubOk(hub) && h in hub.channels && StreamOk(hub.channels[h], sent, consumed)
    ensures h in Published(hub, devices, e).channels
    ensures StreamOk(Published(hub, devices, e).channels[h], sent + Copies(e, Count(devices, hub.channels[h].device)),
                     consumed)
  {
    hide HubOk, Published, Copies, Count;
    var s := hub.channels[h];
    var n := Delivery(hub, devices, e, h);
    CopiesPrefix(e, n, Count(devices, s.device));
    assert n == 0 ==> Copies(e, n) == [] by { NoCopies(e); }
    MoreSent(s, sent, consumed, Copies(e, n), Copies(e, Count(devices, s.device)));
  }

  lemma NoCopies(e: Event)
    ensures Copies(e, 0) == []
  {
  }

  lemma ReceiveKeepsStream(hub: Hub, k: Handle, h: Handle, sent: seq<Event>, consumed: seq<Event>)
    requires h in hub.channels && StreamOk(hub.channels[h], sent, consumed)
    ensures h in Received(hub, k).0.channels
    ensures StreamOk(Received(hub, k).0.channels[h], sent, consumed + if k == h then Received(hub, h).1 else [])
  {
    var s, t := hub.channels[h], Received(hub, k).0.channels[h];
    var got := if k == h then Received(hub, h).1 else [];
    assert s.queue == got + t.queue;
    assert consumed + s.queue == (consumed + got) + t.queue;
  }

  lemma StepKeepsStream(before: seq<Call>, last: Call, h: Handle)
    requires h in Run(before).channels && StreamOk(Run(before).channels[h], Sent(before, h), Consumed(before, h))
    ensures h in Run(before + [last]).channels
    ensures StreamOk(Run(before + [last]).channels[h], Sent(before + [last], h), Consumed(before + [last], h))
  {
    hide HubOk, Published, Received, Copies, Count, StreamOk;
    assert (before + [last])[..|before|] == before;
    RunKeepsHub(before);
    var hub, sent, consumed := Run(before), Sent(before, h), Consumed(before, h);
    assert sent + [] == sent && consumed + [] == consumed;
    match last
    case Subscribe(_, _) =>
    case Cancel(k) => CancelKeepsStream(hub, k, h, sent, consumed);
    case Publish(devices, e) => PublishKeepsStream(hub, devices, e, h, sent, consumed);
    case Receive(k) => ReceiveKeepsStream(hub, k, h, sent, consumed);
  }

  lemma CancelKeepsStream(hub: Hub, k: Handle, h: Handle, sent: seq<Event>, consumed: seq<Event>)
    requires h in hub.channels && StreamOk(hub.channels[h], sent, consumed)
    ensures h in Dropped(hub, k).channels && StreamOk(Dropped(hub, k).channels[h], sent, consumed)
  {
  }

  lemma MoreSent(s: Subscriber, sent: seq<Event>, consumed: seq<Event>, taken: seq<Event>, all: seq<Event>)
    requires StreamOk(s, sent, consumed) && taken <= all && (s.closed ==> taken == [])
    ensures consumed + (s.queue + taken) <= sent + all
    ensures !s.closed && taken == all ==> consumed + (s.queue + taken) == sent + all
  {
    assert consumed + (s.queue + taken) == consumed + s.queue + taken;
  }

  /** For an open subscriber, what it consumed followed by what is queued is exactly what was published to its
      device since it subscribed, in order. For one that was cancelled or fell behind, it is a prefix of it. */
  lemma {:induction false} StreamHasNoGaps(calls: seq<Call>, h: Handle)
    requires h in Run(calls).channels
    ensures StreamOk(Run(calls).channels[h], Sent(calls, h), Consumed(calls, h))
    decreases |calls|
  {
    hide StreamOk, Apply;
    if calls != [] {
      var before, last := calls[..|calls| - 1], calls[|calls| - 1];
      assert before + [last] == calls;
      if h in Run(before).channels {
        StreamHasNoGaps(before, h);
        StepKeepsStream(before, last, h);
      } else {
        NotYetSubscribed(before, h);
        StartOfStream(before, last, h);
        EmptyStream(last.device);
      }
    }
  }

  lemma EmptyStream(d: string)
    ensures StreamOk(Subscriber(d, [], false, false), [], [])
  {
  }

  lemma {:induction false} CopiesCount(e: Event, n: nat)
    ensures |Copies(e, n)| == n
  {
    if n > 0 { CopiesCount(e, n - 1); }
  }

  /** A publication that names the device of an open stream n times appends the event n times if that leaves at most 32
      events unconsumed. Otherwise it fills the queue up to 32 and ends the stream. An ended stream gets nothing. */
  lemma PublicationIsExact(calls: seq<Call>, devices: seq<string>, e: Event, h: Handle)
    requires h in Run(calls).channels && h in Apply(Run(calls), Publish(devices, e)).channels
    ensures var s, t := Run(calls).channels[h], Apply(Run(calls), Publish(devices, e)).channels[h];
            var n := Count(devices, s.device);
            var fits := |s.queue| + n <= 32;
            && t.device == s.device
            && t.closed == (s.closed || !fits)
            && |s.queue| <= 32
            && t.queue == s.queue + Copies(e, if s.closed then 0 else if fits then n else 32 - |s.queue|)
  {
    RunKeepsHub(calls);
    ApplyKeepsHub(Run(calls), Publish(devices, e));
    QueuesAreBounded(Run(calls), h);
    QueuesAreBounded(Apply(Run(calls), Publish(devices, e)), h);
    hide HubOk, Published, Run, Copies;
    var n := Delivery(Run(calls), devices, e, h);
    CopiesCount(e, n);
  }

  lemma QueuesAreBounded(hub: Hub, h: Handle)
    requires HubOk(hub) && h in hub.channels
    ensures |hub.channels[h].queue| <= 32
  {
    assert ChannelOk(hub.channels[h]);
  }

  function OpenStreams(hub: Hub, d: string): set<Handle> {
    set h | h in hub.channels && hub.channels[h].device == d && !hub.channels[h].closed
  }

  /** After any calls a device gets a further stream exactly while it has fewer than three open ones. It starts empty,
      and no other stream changes. */
  lemma SubscribeIsGrantedExactly(calls: seq<Call>, d: string, h: Handle)
    requires h !in Run(calls).channels
    ensures var hub := Run(calls);
            var (after, ok) := Subscribed(hub, d, h);
            && (ok <==> |OpenStreams(hub, d)| < 3)
            && after.channels == if ok then hub.channels[h := Subscriber(d, [], false, false)] else hub.channels
  {
    RunKeepsHub(calls);
    var hub := Run(calls);
    hide Run;
    forall k ensures k in Of(hub.subscribers, d) <==> k in OpenStreams(hub, d) {
      assert k in Of(hub.subscribers, d) <==> OpenFor(hub.channels, d, k);
    }
    assert Of(hub.subscribers, d) == OpenStreams(hub, d);
  }

  /** A receive hands out the next event in order, if one is queued. */
  lemma ReceiveTakesNext(calls: seq<Call>, h: Handle)
    requires h in Run(calls).channels
    ensures var s, sent, consumed := Run(calls).channels[h], Sent(calls, h), Consumed(calls, h);
            && (s.queue != [] ==> |consumed| < |sent|)
            && Consumed(calls + [Receive(h)], h) == consumed + (if s.queue == [] then [] else [sent[|consumed|]])
            && (!s.closed ==> |s.queue| == |sent| - |consumed|)
  {
    StreamHasNoGaps(calls, h);
    assert (calls + [Receive(h)])[..|calls|] == calls;
    hide Run, Sent;
    var s, consumed := Run(calls).channels[h], Consumed(calls, h);
    if s.queue != [] { assert (consumed + s.queue)[|consumed|] == s.queue[0]; }
  }

  /** A cancelled stream is closed at once, keeps what it holds, and no other stream changes. */
  lemma CancelEnds(hub: Hub, h: Handle, k: Handle)
    requires HubOk(hub) && h in hub.channels && k in hub.channels
    ensures var after := Apply(hub, Cancel(h)).channels;
            k in after && after[k] == if k == h then hub.channels[k].(closed := true, shut := true) else hub.channels[k]
  {
    assert ChannelOk(hub.channels[h]);
  }

  /** Whatever happens later, a closed stream stays closed and hands out only what it held. */
  lemma {:induction false} EndedStaysEnded(calls: seq<Call>, i: nat, h: Handle)
    requires i <= |calls| && h in Run(calls[..i]).channels && Run(calls[..i]).channels[h].closed
    ensures h in Run(calls).channels && Run(calls).channels[h].closed
    ensures Consumed(calls, h) + Run(calls).channels[h].queue
         == Consumed(calls[..i], h) + Run(calls[..i]).channels[h].queue
    decreases |calls|
  {
    hide HubOk, Apply, Received;
    if i == |calls| {
      assert calls[..i] == calls;
    } else {
      var before, last := calls[..|calls| - 1], calls[|calls| - 1];
      assert before[..i] == calls[..i];
      EndedStaysEnded(before, i, h);
      RunKeepsHub(before);
      EndedStep(Run(before), last, h);
      var got := if last == Receive(h) then Received(Run(before), h).1 else [];
      assert Consumed(before, h) + got + Run(calls).channels[h].queue
          == Consumed(before, h) + (got + Run(calls).channels[h].queue);
    }
  }

  lemma EndedStep(hub: Hub, call: Call, h: Handle)
    requires HubOk(hub) && h in hub.channels && hub.channels[h].closed
    ensures var after := Apply(hub, call);
            && h in after.channels && after.channels[h].closed
            && hub.channels[h].queue
               == (if call == Receive(h) then Received(hub, h).1 else []) + after.channels[h].queue
  {
    hide HubOk, Published;
    match call
    case Publish(devices, e) =>
      var n := Delivery(hub, devices, e, h);
      NoCopies(e);
    case _ =>
  }
}
