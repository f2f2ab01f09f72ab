/**
 A hub object and one of its consumers: whatever is called on the hub, by this consumer or by others, what the consumer
 sees is a run of the session. A restart replaces the hub.
 */
module HubConsumer {
  import opened EventHub
  import opened EventSession
  import opened EventSpec
  import opened Text
  import opened Wrappers

  /** What the stream handler writes before it reads the channel. */
  function WrittenFirst(outcome: Resumption, current: string, accountId: string): seq<Event> {
    match outcome
    case Fresh => []
    case Gap(reason) => [Event(current, TYPE_GAP, AccountIdsForFilter(accountId), reason)]
    case Resumed(events) => events
  }

  function AccountIdsForFilter(accountId: string): seq<string> {
    if accountId == "" then [] else [accountId]
  }

  class Consumer {
    /** The account asked for, and as the handler trims it. */
    const account: string
    const accountId: string
    const buffer: nat
    const capacity: nat
    var hub: Hub
    /** The open connection: the subscription, and the replay still to be written. */
    var sub: Subscriber?
    var id: nat
    var pending: seq<Event>
    /** What the client has. */
    var lastId: string
    var received: seq<Event>
    ghost var states: seq<State>
    ghost var acts: seq<Action>

    ghost function Filter(): Setting {
      Setting(accountId, buffer, capacity)
    }

    ghost function Now(): State
      reads this
      requires states != []
    {
      states[|states| - 1]
    }

    ghost predicate Subscribed(c: Connection)
      reads this, hub, sub
    {
      && sub != null && id in hub.subscribers && hub.subscribers[id] == sub
      && sub.accountId == accountId && sub.buffer == buffer
      && c.pending == pending && c.queue == sub.queue
    }

    /** The fields are those of the session's state. */
    ghost predicate Mirrors(s: State)
      reads this, hub, sub
    {
      && s.epoch == hub.epoch && Log(s) == hub.log && hub.replayCapacity == capacity
      && s.lastId == lastId && s.received == received
      && match s.connection
         case None => sub == null
         case Some(c) => Subscribed(c)
    }

    ghost predicate Valid()
      reads this, hub, hub.history, hub.subscribers.Values, sub
    {
      && accountId == TrimSpace(account)
      && hub.Valid() && EventSession.Run(states, acts, Filter()) && Mirrors(Now())
    }

    /** A consumer of a hub that has just started. */
    constructor (hub: Hub, account: string, buffer: nat)
      requires hub.Valid() && hub.log == [] && buffer >= 1
      ensures Valid() && acts == [] && this.hub == hub
      ensures this.account == account && this.buffer == buffer && capacity == hub.replayCapacity
    {
      this.account, accountId, this.buffer, capacity := account, TrimSpace(account), buffer, hub.replayCapacity;
      this.hub, sub, id, pending, lastId, received := hub, null, 0, [], "", [];
      new;
      Begin();
    }

    /** The session of a client that has nothing yet. */
    ghost method Begin()
      requires hub.epoch != "" && buffer >= 1
      modifies this`states, this`acts
      ensures states != [] && EventSession.Run(states, acts, Filter()) && acts == []
      ensures Now().epoch == hub.epoch && Log(Now()) == [] && Now().connection.None?
      ensures Now().lastId == "" && Now().received == []
    {
      states, acts := [Init(hub.epoch)], [];
    }

    /** One more step of the session. */
    ghost method Do(act: Action)
      requires EventSession.Run(states, acts, Filter()) && EventSession.Enabled(Now(), act)
      modifies this`states, this`acts
      ensures EventSession.Run(states, acts, Filter()) && acts == old(acts) + [act]
      ensures Now() == Step(old(Now()), act, Filter())
    {
      var t := Step(Now(), act, Filter());
      RunExtends(states, acts, act, t, Filter());
      states, acts := states + [t], acts + [act];
    }

    /** A connection is open with these events to be written first; nothing else has changed. */
    ghost predicate Opened(s: State, t: State, pending: seq<Event>) {
      && t.epoch == s.epoch && t.logs == s.logs && t.lastId == s.lastId && t.received == s.received
      && t.connection.Some? && t.connection.value.queue == [] && t.connection.value.pending == pending
    }

    ghost method DoSubscribe(answer: Resumption)
      requires EventSession.Run(states, acts, Filter()) && Now().connection.None?
      requires Answered(answer, Now().epoch, Log(Now()), capacity, Now().lastId)
      modifies this`states, this`acts
      ensures EventSession.Run(states, acts, Filter()) && acts == old(acts) + [Action.Subscribe]
      ensures Opened(old(Now()), Now(), WrittenFirst(answer, Cursor(old(Now()).epoch, |Log(old(Now()))|), accountId))
    {
      Do(Action.Subscribe);
    }

    ghost method DoRestart(epoch: string)
      requires EventSession.Run(states, acts, Filter()) && EventSession.Enabled(Now(), Action.Restart(epoch))
      modifies this`states, this`acts
      ensures EventSession.Run(states, acts, Filter()) && acts == old(acts) + [Action.Restart(epoch)]
      ensures Now().epoch == epoch && Log(Now()) == [] && Now().connection.None?
      ensures Now().lastId == old(Now()).lastId && Now().received == old(Now()).received
    {
      Do(Action.Restart(epoch));
    }

    /** Anyone publishes. */
    method Publish(raw: Event)
      requires Valid() && hub.nextEventID + 1 < UINT64_LIMIT
      modifies this`states, this`acts, hub, hub.history, hub.subscribers.Values
      ensures Valid() && acts == old(acts) + [Action.Publish(raw)]
    {
      Do(Action.Publish(raw));
      var event := hub.Publish(raw);
    }

    /** The stream handler: the answer of the hub, and what is written before its channel is read. */
    method Subscribe()
      requires Valid() && sub == null
      modifies this, hub
      ensures Valid() && acts == old(acts) + [Action.Subscribe]
    {
      ghost var s := Now();
      var outcome, current := Register();
      DoSubscribe(outcome);
      pending := WrittenFirst(outcome, current, accountId);
      OpenedMirrors(s);
    }

    method Register() returns (outcome: Resumption, current: string)
      requires hub.Valid() && accountId == TrimSpace(account) && buffer >= 1
      modifies this`id, this`sub, hub
      ensures hub.Valid() && hub.log == old(hub.log)
      ensures sub != null && id in hub.subscribers && hub.subscribers[id] == sub
      ensures sub.accountId == accountId && sub.buffer == buffer && sub.queue == []
      ensures Answered(outcome, hub.epoch, hub.log, hub.replayCapacity, lastId) && current == Cursor(hub.epoch, |hub.log|)
    {
      TrimTwice(account);
      var reply;
      id, sub, reply := hub.SubscribeFrom(accountId, buffer, lastId);
      outcome, current := reply.outcome, reply.current;
    }

    ghost predicate Answered(outcome: Resumption, epoch: string, log: seq<Event>, capacity: nat, lastId: string) {
      outcome == Resume(epoch, log, capacity, accountId, TrimSpace(lastId))
    }

    lemma OpenedMirrors(s: State)
      requires states != [] && Opened(s, Now(), pending)
      requires s.epoch == hub.epoch && Log(s) == hub.log && hub.replayCapacity == capacity
      requires s.lastId == lastId && s.received == received
      requires sub != null && id in hub.subscribers && hub.subscribers[id] == sub
      requires sub.accountId == accountId && sub.buffer == buffer && sub.queue == []
      ensures Mirrors(Now())
    {
    }

    /** The next event is written and read. */
    method Receive() returns (event: Event)
      requires Valid() && sub != null && (pending != [] || sub.queue != [])
      modifies this, sub
      ensures Valid() && acts == old(acts) + [Action.Receive]
      ensures received == old(received) + [event]
    {
      DoReceive();
      event := TakeNext();
    }

    /** The replay first, then the channel; the client remembers the event's ID. */
    method TakeNext() returns (event: Event)
      requires sub != null && (pending != [] || sub.queue != [])
      requires hub.Valid() && id in hub.subscribers && hub.subscribers[id] == sub
      modifies this`pending, this`lastId, this`received, sub`queue
      ensures hub.Valid() && lastId == event.id && received == old(received) + [event]
      ensures if old(pending) != [] then event == old(pending)[0] && pending == old(pending)[1..] && sub.queue == old(sub.queue)
              else event == old(sub.queue)[0] && pending == [] && sub.queue == old(sub.queue)[1..]
    {
      if pending != [] {
        event, pending := pending[0], pending[1..];
      } else {
        var next := sub.Receive();
        event := next.value;
      }
      lastId, received := event.id, received + [event];
    }

    ghost method DoReceive()
      requires EventSession.Run(states, acts, Filter()) && EventSession.Enabled(Now(), Action.Receive)
      modifies this`states, this`acts
      ensures EventSession.Run(states, acts, Filter()) && acts == old(acts) + [Action.Receive]
      ensures var s, t := old(Now()), Now();
              && t.epoch == s.epoch && t.logs == s.logs && t.connection.Some?
              && t.lastId == NextEvent(s).id && t.received == s.received + [NextEvent(s)]
              && var c, c' := s.connection.value, t.connection.value;
                 if c.pending != [] then c'.pending == c.pending[1..] && c'.queue == c.queue
                 else c'.pending == [] && c'.queue == c.queue[1..]
    {
      Do(Action.Receive);
    }

    method Disconnect()
      requires Valid() && sub != null
      modifies this, hub, hub.subscribers.Values
      ensures Valid() && acts == old(acts) + [Action.Disconnect]
    {
      Do(Action.Disconnect);
      hub.Unsubscribe(id);
      sub := null;
    }

    /** A new process under a new epoch, its history empty. */
    method Restart(epoch: string)
      requires Valid() && EventSession.Enabled(Now(), Action.Restart(epoch))
      modifies this
      ensures Valid() && acts == old(acts) + [Action.Restart(epoch)] && fresh(hub)
    {
      DoRestart(epoch);
      hub := new Hub(epoch, capacity);
      sub := null;
    }

    // What other consumers do to the same hub

    method OtherSubscribes(account: string, requestedBuffer: int, lastEventID: string) returns (other: nat)
      requires Valid()
      modifies hub
      ensures Valid() && acts == old(acts)
    {
      var sub, reply;
      other, sub, reply := hub.SubscribeFrom(account, requestedBuffer, lastEventID);
    }

    method OtherReceives(other: nat) returns (event: Option<Event>)
      requires Valid() && other in hub.subscribers && hub.subscribers[other] != sub
      modifies hub.subscribers.Values
      ensures Valid() && acts == old(acts)
    {
      event := hub.subscribers[other].Receive();
    }

    method OtherUnsubscribes(other: nat)
      requires Valid() && (sub != null ==> other != id)
      modifies hub, hub.subscribers.Values
      ensures Valid() && acts == old(acts)
    {
      hub.Unsubscribe(other);
    }
  }

  /** Whatever happened to the hub, what its consumer received since its latest marker is exactly what matched, and what
      is pending and queued continues it. */
  lemma ConsumerMissesNothing(c: Consumer)
    requires c.Valid()
    ensures Exact(c.Now(), c.Filter()) && c.received == c.Now().received && c.lastId == c.Now().lastId
    ensures c.sub != null ==> c.Now().connection.Some? && ExactlyQueued(c.Now(), c.Now().connection.value, c.Filter())
  {
    NothingLostNothingTwice(c.states, c.acts, c.Filter(), |c.acts|);
  }
}
