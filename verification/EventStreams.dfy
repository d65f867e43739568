/**
 Event delivery: what a subscriber has been sent, under local publishes, snapshots a poller
 took earlier, changes made by another process, and streams that come and go.
 */
module EventStreams {
  import opened SessionModel

  /** One subscription; `start` is the event id the client asked to resume after. */
  datatype Channel = Channel(sessionId: string, start: int, sent: seq<Event>, cursor: int, open: bool)

  // ----- publishStreamLocked -----

  function Offer(c: Channel, event: Event): Channel
  {
    if event.eventId > c.cursor then c.(sent := c.sent + [event], cursor := event.eventId) else c
  }

  function PublishTo(c: Channel, events: seq<Event>): Channel
    decreases |events|
  {
    if events == [] then c else PublishTo(Offer(c, events[0]), events[1..])
  }

  method PublishStream(c: Channel, events: seq<Event>) returns (after: Channel)
    ensures after == PublishTo(c, events)
  {
    after := c;
    for i := 0 to |events|
      invariant PublishTo(after, events[i..]) == PublishTo(c, events)
    {
      assert events[i..][1..] == events[i + 1..];
      after := Offer(after, events[i]);
    }
    assert events[|events|..] == [];
  }

  // ----- the reference: the events of a session between two ids -----

  function Between(events: seq<Event>, above: int, upTo: int): seq<Event>
  {
    if events == [] then []
    else (if above < events[0].eventId <= upTo then [events[0]] else []) + Between(events[1..], above, upTo)
  }

  ghost predicate Numbered(events: seq<Event>)
  {
    forall i :: 0 <= i < |events| ==> events[i].eventId == i + 1
  }

  function Clip(n: int): nat
  {
    if n < 0 then 0 else n
  }

  lemma {:induction false} BetweenSnoc(events: seq<Event>, event: Event, above: int, upTo: int)
    ensures Between(events + [event], above, upTo) ==
            Between(events, above, upTo) + (if above < event.eventId <= upTo then [event] else [])
  {
    if events == [] {
      assert [event][1..] == [];
      assert [] + [event] == [event];
      assert Between([event][1..], above, upTo) == [];
    } else {
      assert (events + [event])[1..] == events[1..] + [event];
      BetweenSnoc(events[1..], event, above, upTo);
    }
  }

  /** With ids 1..n the events between two ids are a stretch of the list: no gap, no repeat, in order. */
  lemma {:induction false} BetweenIsSlice(events: seq<Event>, above: int, upTo: int)
    requires Numbered(events) && above <= upTo
    ensures var lo := if Clip(above) < |events| then Clip(above) else |events|;
            var hi := if Clip(upTo) < |events| then Clip(upTo) else |events|;
            Between(events, above, upTo) == events[lo..hi]
  {
    if events != [] {
      var front, last := events[..|events| - 1], events[|events| - 1];
      assert events == front + [last];
      BetweenIsSlice(front, above, upTo);
      BetweenSnoc(front, last, above, upTo);
    }
  }

  // ----- one channel -----

  ghost predicate Delivered(c: Channel, events: seq<Event>)
  {
    && c.start <= c.cursor && (c.cursor == c.start || c.cursor <= |events|)
    && c.sent == Between(events, c.start, c.cursor)
  }

  lemma {:induction false} PublishKeeps(c: Channel, events: seq<Event>)
    ensures var after := PublishTo(c, events);
            after.sessionId == c.sessionId && after.start == c.start && after.open == c.open
    decreases |events|
  {
    if events != [] {
      PublishKeeps(Offer(c, events[0]), events[1..]);
    }
  }

  function Tail(events: seq<Event>, from: nat): seq<Event>
  {
    if from < |events| then events[from..] else []
  }

  lemma TailHead(events: seq<Event>, i: nat)
    requires i < |events|
    ensures [events[i]] + Tail(events, i + 1) == Tail(events, i)
  {
  }

  lemma {:induction false} PublishedCursor(c: Channel, events: seq<Event>, i: nat)
    requires Numbered(events) && i <= |events|
    ensures PublishTo(c, events[i..]).cursor ==
            if i < |events| && Clip(c.cursor) < |events| then |events| else c.cursor
    decreases |events| - i
  {
    if i < |events| {
      assert events[i..][0] == events[i] && events[i..][1..] == events[i + 1..];
      PublishedCursor(Offer(c, events[i]), events, i + 1);
    }
  }

  /** Where the missing events start for a reader at position i of the snapshot. */
  function Missing(cursor: int, i: nat): nat
  {
    if cursor > i then cursor else i
  }

  lemma {:induction false} PublishedEvents(c: Channel, events: seq<Event>, i: nat)
    requires Numbered(events) && i <= |events|
    ensures PublishTo(c, events[i..]).sent == c.sent + Tail(events, Missing(c.cursor, i))
    decreases |events| - i
  {
    if i < |events| {
      var next := Offer(c, events[i]);
      assert PublishTo(c, events[i..]) == PublishTo(next, events[i + 1..]) by {
        assert events[i..][0] == events[i] && events[i..][1..] == events[i + 1..];
      }
      PublishedEvents(next, events, i + 1);
      OfferMissing(c, events, i);
    }
  }

  lemma OfferMissing(c: Channel, events: seq<Event>, i: nat)
    requires Numbered(events) && i < |events|
    ensures var next := Offer(c, events[i]);
            next.sent + Tail(events, Missing(next.cursor, i + 1)) == c.sent + Tail(events, Missing(c.cursor, i))
  {
    if i + 1 > c.cursor {
      TailHead(events, i);
    }
  }

  /** Publishing any snapshot, fresh or stale, extends what was sent by exactly what was missing. */
  lemma PublishDelivers(c: Channel, events: seq<Event>, n: nat)
    requires Numbered(events) && n <= |events| && Delivered(c, events)
    ensures Delivered(PublishTo(c, events[..n]), events)
    ensures Clip(PublishTo(c, events[..n]).cursor) >= n
  {
    var snapshot := events[..n];
    assert snapshot[0..] == snapshot;
    PublishKeeps(c, snapshot);
    PublishedCursor(c, snapshot, 0);
    PublishedEvents(c, snapshot, 0);
    BetweenIsSlice(events, c.start, c.cursor);
    BetweenIsSlice(events, c.start, PublishTo(c, snapshot).cursor);
    SliceGrows(events, Clip(c.start), Clip(c.cursor), n);
  }

  lemma SliceGrows(events: seq<Event>, start: nat, cursor: nat, n: nat)
    requires n <= |events| && start <= cursor
    ensures cursor < n ==> events[start..cursor] + Tail(events[..n], cursor) == events[start..n]
    ensures cursor >= n ==> Tail(events[..n], cursor) == []
  {
    if cursor < n {
      assert events[start..n] == events[start..cursor] + events[cursor..n];
      assert events[..n][cursor..] == events[cursor..n];
    }
  }

  lemma MoreEvents(c: Channel, before: seq<Event>, after: seq<Event>)
    requires before <= after && Numbered(after) && Delivered(c, before)
    ensures Delivered(c, after)
  {
    BetweenIsSlice(before, c.start, c.cursor);
    BetweenIsSlice(after, c.start, c.cursor);
  }

  // ----- the service's streams -----

  datatype Hub = Hub(channels: map<nat, Channel>, streams: map<string, set<nat>>)

  function StreamsOf(hub: Hub, sessionId: string): set<nat>
  {
    if sessionId in hub.streams then hub.streams[sessionId] else {}
  }

  /** publishLocked: the same snapshot to every stream of the session. */
  function PublishAll(hub: Hub, sessionId: string, events: seq<Event>): Hub
  {
    hub.(channels := map h | h in hub.channels ::
      if h in StreamsOf(hub, sessionId) then PublishTo(hub.channels[h], events) else hub.channels[h])
  }

  function Subscribe(hub: Hub, handle: nat, sessionId: string, start: int, events: seq<Event>): Hub
  {
    Hub(hub.channels[handle := PublishTo(Channel(sessionId, start, [], start, true), events)],
        hub.streams[sessionId := StreamsOf(hub, sessionId) + {handle}])
  }

  function Unsubscribe(hub: Hub, handle: nat): Hub
  {
    if handle !in hub.channels then hub
    else
      var sessionId := hub.channels[handle].sessionId;
      Hub(hub.channels[handle := hub.channels[handle].(open := false)],
          hub.streams[sessionId := StreamsOf(hub, sessionId) - {handle}])
  }

  /** One tick of pollExternalEvents with the snapshot it read before taking the lock. */
  function Poll(hub: Hub, handle: nat, events: seq<Event>): Hub
  {
    if handle in hub.channels && handle in StreamsOf(hub, hub.channels[handle].sessionId)
    then hub.(channels := hub.channels[handle := PublishTo(hub.channels[handle], events)])
    else hub
  }

  /** The event lists of all sessions, and who is listening. */
  datatype World = World(logs: map<string, seq<Event>>, hub: Hub)

  /** LocalChange publishes what it wrote; RemoteChange is written by another process. */
  datatype Action =
    | Open(id: string, log: seq<Event>)
    | LocalChange(id: string, log: seq<Event>)
    | RemoteChange(id: string, log: seq<Event>)
    | SubscribeTo(handle: nat, id: string, start: int)
    | Drop(handle: nat)
    | PollWith(handle: nat, seen: nat)

  ghost predicate Extends(before: seq<Event>, after: seq<Event>)
  {
    before <= after && Numbered(after)
  }

  ghost predicate Enabled(w: World, a: Action)
  {
    match a
    case Open(id, log) => id !in w.logs && Numbered(log)
    case LocalChange(id, log) => id in w.logs && Extends(w.logs[id], log)
    case RemoteChange(id, log) => id in w.logs && Extends(w.logs[id], log)
    case SubscribeTo(handle, id, start) => id in w.logs && handle !in w.hub.channels
    case Drop(handle) => true
    case PollWith(handle, seen) =>
      handle in w.hub.channels && w.hub.channels[handle].sessionId in w.logs
      && seen <= |w.logs[w.hub.channels[handle].sessionId]|
  }

  /** Every service call extends the session's events as the actions above require. */
  lemma ServiceCallsExtend(s: Session, call: ServiceCall)
    requires SessionOk(s) && TimeOf(call) != ZERO_TIME
    ensures Numbered(s.events) && Extends(s.events, Applied(s, call).events)
  {
    ChangeOk(s, call);
  }

  ghost function Step(w: World, a: Action): World
    requires Enabled(w, a)
  {
    match a
    case Open(id, log) => w.(logs := w.logs[id := log])
    case LocalChange(id, log) => World(w.logs[id := log], PublishAll(w.hub, id, log))
    case RemoteChange(id, log) => w.(logs := w.logs[id := log])
    case SubscribeTo(handle, id, start) => w.(hub := Subscribe(w.hub, handle, id, start, w.logs[id]))
    case Drop(handle) => w.(hub := Unsubscribe(w.hub, handle))
    case PollWith(handle, seen) => w.(hub := Poll(w.hub, handle, w.logs[w.hub.channels[handle].sessionId][..seen]))
  }

  ghost predicate ChannelOk(logs: map<string, seq<Event>>, c: Channel)
  {
    c.sessionId in logs && Delivered(c, logs[c.sessionId])
  }

  ghost predicate LogsOk(logs: map<string, seq<Event>>)
  {
    forall id :: id in logs ==> Numbered(logs[id])
  }

  /** The registry names exactly the open channels, under their sessions. */
  ghost predicate Registered(hub: Hub)
  {
    && (forall s, h :: h in StreamsOf(hub, s) ==> h in hub.channels && hub.channels[h].sessionId == s)
    && (forall h :: h in hub.channels ==> (hub.channels[h].open <==> h in StreamsOf(hub, hub.channels[h].sessionId)))
  }

  ghost predicate WorldOk(w: World)
  {
    && LogsOk(w.logs) && Registered(w.hub)
    && forall h :: h in w.hub.channels ==> ChannelOk(w.logs, w.hub.channels[h])
  }

  lemma LogGrows(w: World, id: string, log: seq<Event>)
    requires WorldOk(w) && id in w.logs && Extends(w.logs[id], log)
    ensures WorldOk(w.(logs := w.logs[id := log]))
  {
    forall h | h in w.hub.channels ensures ChannelOk(w.logs[id := log], w.hub.channels[h]) {
      var c := w.hub.channels[h];
      assert ChannelOk(w.logs, c);
      if c.sessionId == id {
        MoreEvents(c, w.logs[id], log);
      }
    }
  }

  lemma ChannelPublish(logs: map<string, seq<Event>>, c: Channel, n: nat)
    requires LogsOk(logs) && ChannelOk(logs, c) && n <= |logs[c.sessionId]|
    ensures var after := PublishTo(c, logs[c.sessionId][..n]);
            ChannelOk(logs, after) && Clip(after.cursor) >= n && after.sessionId == c.sessionId && after.open == c.open
  {
    PublishKeeps(c, logs[c.sessionId][..n]);
    PublishDelivers(c, logs[c.sessionId], n);
  }

  /** Channels replaced one for one, each still open or closed under its session, stay registered. */
  lemma RegisteredAfter(hub: Hub, channels: map<nat, Channel>)
    requires Registered(hub) && channels.Keys == hub.channels.Keys
    requires forall h :: h in channels ==>
               channels[h].sessionId == hub.channels[h].sessionId && channels[h].open == hub.channels[h].open
    ensures Registered(hub.(channels := channels))
  {
    var next := hub.(channels := channels);
    assert forall s :: StreamsOf(next, s) == StreamsOf(hub, s);
  }

  lemma PublishAllOk(w: World, id: string)
    requires WorldOk(w) && id in w.logs
    ensures WorldOk(w.(hub := PublishAll(w.hub, id, w.logs[id])))
    ensures forall h :: h in StreamsOf(w.hub, id) ==>
              h in w.hub.channels && Clip(PublishAll(w.hub, id, w.logs[id]).channels[h].cursor) >= |w.logs[id]|
  {
    var after := PublishAll(w.hub, id, w.logs[id]).channels;
    assert w.logs[id][..|w.logs[id]|] == w.logs[id];
    forall h | h in w.hub.channels
      ensures ChannelOk(w.logs, after[h])
      ensures after[h].sessionId == w.hub.channels[h].sessionId && after[h].open == w.hub.channels[h].open
      ensures h in StreamsOf(w.hub, id) ==> Clip(after[h].cursor) >= |w.logs[id]|
    {
      assert ChannelOk(w.logs, w.hub.channels[h]);
      if h in StreamsOf(w.hub, id) {
        ChannelPublish(w.logs, w.hub.channels[h], |w.logs[id]|);
      }
    }
    RegisteredAfter(w.hub, after);
  }

  lemma SubscribeOk(w: World, handle: nat, id: string, start: int)
    requires WorldOk(w) && id in w.logs && handle !in w.hub.channels
    ensures WorldOk(w.(hub := Subscribe(w.hub, handle, id, start, w.logs[id])))
  {
    var stream := Channel(id, start, [], start, true);
    var next := Subscribe(w.hub, handle, id, start, w.logs[id]);
    assert w.logs[id][..|w.logs[id]|] == w.logs[id];
    BetweenIsSlice(w.logs[id], start, start);
    ChannelPublish(w.logs, stream, |w.logs[id]|);
    assert StreamsOf(next, id) == StreamsOf(w.hub, id) + {handle};
    assert forall s :: s != id ==> StreamsOf(next, s) == StreamsOf(w.hub, s);
  }

  lemma DropOk(w: World, handle: nat)
    requires WorldOk(w)
    ensures WorldOk(w.(hub := Unsubscribe(w.hub, handle)))
  {
    if handle in w.hub.channels {
      var next := Unsubscribe(w.hub, handle);
      var id := w.hub.channels[handle].sessionId;
      assert StreamsOf(next, id) == StreamsOf(w.hub, id) - {handle};
      assert forall s :: s != id ==> StreamsOf(next, s) == StreamsOf(w.hub, s);
      assert ChannelOk(w.logs, w.hub.channels[handle]);
    }
  }

  lemma PollOk(w: World, handle: nat, seen: nat)
    requires WorldOk(w) && Enabled(w, PollWith(handle, seen))
    ensures WorldOk(Step(w, PollWith(handle, seen)))
  {
    var c := w.hub.channels[handle];
    assert ChannelOk(w.logs, c);
    ChannelPublish(w.logs, c, seen);
    RegisteredAfter(w.hub, w.hub.channels[handle := PublishTo(c, w.logs[c.sessionId][..seen])]);
  }

  lemma StepOk(w: World, a: Action)
    requires WorldOk(w) && Enabled(w, a)
    ensures WorldOk(Step(w, a))
  {
    match a
    case Open(id, log) =>
    case LocalChange(id, log) =>
      LogGrows(w, id, log);
      PublishAllOk(w.(logs := w.logs[id := log]), id);
    case RemoteChange(id, log) => LogGrows(w, id, log);
    case SubscribeTo(handle, id, start) => SubscribeOk(w, handle, id, start);
    case Drop(handle) => DropOk(w, handle);
    case PollWith(handle, seen) => PollOk(w, handle, seen);
  }

  /** Actions that are not possible are skipped, so every list of actions is a run. */
  ghost function Run(w: World, actions: seq<Action>): World
    decreases |actions|
  {
    if actions == [] then w
    else Run(if Enabled(w, actions[0]) then Step(w, actions[0]) else w, actions[1..])
  }

  lemma {:induction false} RunOk(w: World, actions: seq<Action>)
    requires WorldOk(w)
    ensures WorldOk(Run(w, actions))
    decreases |actions|
  {
    if actions != [] {
      if Enabled(w, actions[0]) {
        StepOk(w, actions[0]);
        RunOk(Step(w, actions[0]), actions[1..]);
      } else {
        RunOk(w, actions[1..]);
      }
    }
  }

  const EMPTY := World(map[], Hub(map[], map[]))

  /** Every subscriber, in every run: exactly the events above its start and up to its cursor. */
  lemma SubscribersMissNothing(actions: seq<Action>, h: nat)
    requires h in Run(EMPTY, actions).hub.channels
    ensures var w := Run(EMPTY, actions);
            var c := w.hub.channels[h];
            && c.sessionId in w.logs && Numbered(w.logs[c.sessionId])
            && c.sent == Between(w.logs[c.sessionId], c.start, c.cursor)
  {
    assert WorldOk(EMPTY);
    RunOk(EMPTY, actions);
    assert ChannelOk(Run(EMPTY, actions).logs, Run(EMPTY, actions).hub.channels[h]);
  }

  /** A local change brings every open stream of the session up to date. */
  lemma LocalChangesReachEveryone(w: World, id: string, log: seq<Event>, h: nat)
    requires WorldOk(w) && Enabled(w, LocalChange(id, log)) && h in StreamsOf(w.hub, id)
    ensures h in Step(w, LocalChange(id, log)).hub.channels
    ensures Clip(Step(w, LocalChange(id, log)).hub.channels[h].cursor) >= |log|
  {
    LogGrows(w, id, log);
    PublishAllOk(w.(logs := w.logs[id := log]), id);
  }

  /** Nothing is sent on a closed channel, and none opens again. */
  lemma ClosedStaysClosed(w: World, a: Action, h: nat)
    requires WorldOk(w) && Enabled(w, a) && h in w.hub.channels && !w.hub.channels[h].open
    ensures h in Step(w, a).hub.channels && Step(w, a).hub.channels[h] == w.hub.channels[h]
  {
    assert forall s :: h !in StreamsOf(w.hub, s);
  }
}
