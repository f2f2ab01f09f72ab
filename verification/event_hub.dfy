/**
 The hub: a bounded history shifted in place and one bounded queue per subscriber. Every method holds the
 hub's lock throughout, so it is one step; the ghost `log` is the unbounded sequence of everything published.
 */
module EventHub {
  import opened Wrappers
  import opened Text
  import opened EventSpec

  /** A subscriber and its channel. */
  class Subscriber {
    const accountId: string
    const buffer: nat
    var queue: seq<Event>
    var closed: bool

    constructor (accountId: string, buffer: nat)
      ensures this.accountId == accountId && this.buffer == buffer && queue == [] && !closed
    {
      this.accountId, this.buffer, queue, closed := accountId, buffer, [], false;
    }

    /** A send that may neither block nor meet a closed channel: the caller has to know that there is room. */
    method Send(event: Event)
      requires !closed && |queue| < buffer
      modifies this`queue
      ensures queue == old(queue) + [event]
    {
      queue := queue + [event];
    }

    /** The consumer's end. */
    method Receive() returns (event: Option<Event>)
      modifies this`queue
      ensures if old(queue) == [] then event == None && queue == []
              else event == Some(old(queue)[0]) && queue == old(queue)[1..]
    {
      if queue == [] { return None; }
      event, queue := Some(queue[0]), queue[1..];
    }

    method DrainEvents()
      modifies this`queue
      ensures queue == []
    {
      while queue != []
      {
        queue := queue[1..];
      }
    }

    /** Publish's part for one subscriber: send, or drain and leave a gap marker. */
    method Deliver(event: Event)
      requires !closed && 1 <= buffer
      modifies this`queue
      ensures queue == Offer(old(queue), accountId, buffer, event)
    {
      if Matches(accountId, event) {
        if |queue| < buffer {
          Send(event);
        } else {
          DrainEvents();
          Send(SlowConsumerGap(accountId, event));
        }
      }
    }
  }

  const BLANK_EVENT := Event("", "", [], "")

  datatype ResumeReply = ResumeReply(current: string, oldest: Option<string>, outcome: Resumption, reconcile: bool)

  lemma NumberedNext(log: seq<Event>, epoch: string, event: Event)
    requires Numbered(log, epoch) && event.id == Cursor(epoch, |log| + 1)
    ensures Numbered(log + [event], epoch)
  {
  }

  class Hub {
    const epoch: string
    const replayCapacity: nat
    var nextSubID: nat
    var nextEventID: nat
    var history: array<Event>
    var held: nat
    var subscribers: map<nat, Subscriber>
    ghost var log: seq<Event>

    ghost predicate HistoryValid()
      reads this, history
    {
      && history.Length == replayCapacity && held == Min(replayCapacity, |log|)
      && history[..held] == History(log, replayCapacity)
    }

    ghost predicate SubscribersValid()
      reads this, subscribers.Values
    {
      && (forall i | i in subscribers :: i <= nextSubID)
      && (forall i | i in subscribers ::
            !subscribers[i].closed && 1 <= subscribers[i].buffer && |subscribers[i].queue| <= subscribers[i].buffer)
      && (forall i, j | i in subscribers && j in subscribers && i != j :: subscribers[i] != subscribers[j])
    }

    ghost predicate Valid()
      reads this, history, subscribers.Values
    {
      && epoch != "" && nextEventID == |log| < UINT64_LIMIT && Numbered(log, epoch)
      && HistoryValid() && SubscribersValid()
    }

    constructor (epoch: string, capacity: int)
      requires epoch != ""
      ensures Valid() && fresh(history) && this.epoch == epoch && log == [] && subscribers == map[]
      ensures replayCapacity == if capacity < 0 then 0 else capacity
    {
      this.epoch := epoch;
      var size := if capacity < 0 then 0 else capacity;
      replayCapacity, nextSubID, nextEventID, held, subscribers, log := size, 0, 0, 0, map[], [];
      history := new Event[size](_ => BLANK_EVENT);
    }

    /** Keep the newest `replayCapacity` events, shifting the array in place when it is full. */
    method AppendHistory(event: Event)
      requires HistoryValid()
      modifies this`held, this`log, history
      ensures HistoryValid() && log == old(log) + [event]
    {
      ghost var before := log;
      log := log + [event];
      if replayCapacity == 0 {
        return;
      }
      if held == replayCapacity {
        ghost var was := history[..];
        var i := 0;
        while i + 1 < held
          invariant 0 <= i < held == replayCapacity == history.Length == |was| && log == before + [event]
          invariant forall k | 0 <= k < i :: history[k] == was[k + 1]
          invariant forall k | i <= k < held :: history[k] == was[k]
        {
          history[i] := history[i + 1];
          i := i + 1;
        }
        history[held - 1] := event;
        assert was == History(before, replayCapacity);
      } else {
        history[held] := event;
        held := held + 1;
      }
    }

    method Publish(raw: Event) returns (event: Event)
      requires Valid() && nextEventID + 1 < UINT64_LIMIT
      modifies this`nextEventID, this`held, this`log, history, subscribers.Values`queue
      ensures Valid() && log == old(log) + [event]
      ensures event == Stamped(epoch, |log|, raw)
      ensures forall i | i in subscribers ::
                subscribers[i].queue == Offer(old(subscribers[i].queue), subscribers[i].accountId, subscribers[i].buffer, event)
    {
      nextEventID := nextEventID + 1;
      event := Stamp(raw);
      NumberedNext(log, epoch, event);
      AppendHistory(event);
      FanOut(event);
    }

    /** The event under its own number, with a default type and tidied accounts. */
    method Stamp(raw: Event) returns (event: Event)
      ensures event == Stamped(epoch, nextEventID, raw)
    {
      var accountIds := NormalizeIds(raw.accountIds);
      event := Event(Cursor(epoch, nextEventID), if raw.kind == "" then DEFAULT_TYPE else raw.kind, accountIds, raw.body);
    }

    method FanOut(event: Event)
      requires SubscribersValid()
      modifies subscribers.Values`queue
      ensures SubscribersValid()
      ensures forall i | i in subscribers ::
                subscribers[i].queue == Offer(old(subscribers[i].queue), subscribers[i].accountId, subscribers[i].buffer, event)
    {
      var waiting := subscribers.Keys;
      while waiting != {}
        invariant waiting <= subscribers.Keys
        invariant SubscribersValid()
        invariant forall i | i in waiting :: subscribers[i].queue == old(subscribers[i].queue)
        invariant forall i | i in subscribers && i !in waiting ::
                    subscribers[i].queue == Offer(old(subscribers[i].queue), subscribers[i].accountId, subscribers[i].buffer, event)
        decreases waiting
      {
        var i :| i in waiting;
        subscribers[i].Deliver(event);
        waiting := waiting - {i};
      }
    }

    /** The loop with its set of accounts seen. */
    method NormalizeIds(ids: seq<string>) returns (normalized: seq<string>)
      ensures normalized == NormalizeAccountIds(ids)
    {
      normalized := [];
      var seen: set<string> := {};
      for i := 0 to |ids|
        invariant normalized == NormalizeAccountIds(ids[..i])
        invariant forall id :: id in seen <==> id in normalized
      {
        assert ids[..i + 1][..i] == ids[..i];
        var id := TrimSpace(ids[i]);
        if id != "" && id !in seen {
          seen := seen + {id};
          normalized := normalized + [id];
        }
      }
      assert ids[..|ids|] == ids;
    }

    /** Resume out of the bounded history; the answer is the one defined on the unbounded log. */
    method ResumeFrom(accountId: string, requested: string) returns (reply: ResumeReply)
      requires Valid()
      ensures reply.outcome == Resume(epoch, log, replayCapacity, accountId, requested)
      ensures reply.current == Cursor(epoch, |log|) && (reply.reconcile <==> requested != "")
      ensures reply.oldest == if held == 0 then None else Some(History(log, replayCapacity)[0].id)
    {
      var current := Cursor(epoch, nextEventID);
      var oldest := if held > 0 then Some(history[0].id) else None;
      if requested == "" {
        return ResumeReply(current, oldest, Fresh, false);
      }
      var parsed := ParseCursor(requested);
      if parsed.None? {
        return ResumeReply(current, oldest, Gap("invalid_cursor"), true);
      }
      var sequence := parsed.value.sequence;
      if parsed.value.epoch != epoch {
        return ResumeReply(current, oldest, Gap("server_restart"), true);
      }
      if sequence > nextEventID {
        return ResumeReply(current, oldest, Gap("cursor_ahead"), true);
      }
      var earliest := nextEventID + 1;
      if held > 0 {
        var first := PositionAt(0);
        earliest := first.value.sequence;
      }
      if sequence + 1 < earliest {
        return ResumeReply(current, oldest, Gap("cursor_expired"), true);
      }
      var events := Replay(accountId, sequence);
      return ResumeReply(current, oldest, Resumed(events), true);
    }

    /** The number read back out of a held event's cursor. */
    method PositionAt(k: nat) returns (p: Option<Position>)
      requires Valid() && k < held
      ensures p == Some(Position(epoch, Evicted(log, replayCapacity) + k + 1))
    {
      var event := HeldEvent(k);
      p := PositionOf(event, Evicted(log, replayCapacity) + k + 1);
    }

    method PositionOf(event: Event, ghost number: nat) returns (p: Option<Position>)
      requires event.id == Cursor(epoch, number) && epoch != "" && number < UINT64_LIMIT
      ensures p == Some(Position(epoch, number))
    {
      ParseCursorInverts(epoch, number);
      p := ParseCursor(event.id);
    }

    method HeldEvent(k: nat) returns (event: Event)
      requires HistoryValid() && k < held
      ensures event == log[Evicted(log, replayCapacity) + k]
    {
      event := history[k];
      assert event == history[..held][k];
    }

    method Replay(accountId: string, sequence: nat) returns (events: seq<Event>)
      requires Valid() && Evicted(log, replayCapacity) <= sequence <= |log|
      ensures events == Matching(log, accountId, sequence, |log|)
    {
      ghost var base := Evicted(log, replayCapacity);
      events := [];
      for k := 0 to held
        invariant events == Matching(log, accountId, sequence, base + k)
      {
        var number := PositionAt(k);
        var event := HeldEvent(k);
        if number.Some? && number.value.sequence > sequence && Matches(accountId, event) {
          events := events + [event];
        }
      }
    }

    /** Register and resume in one step: nothing published later is missed, nothing published earlier is queued. */
    method SubscribeFrom(account: string, requestedBuffer: int, lastEventID: string)
      returns (id: nat, sub: Subscriber, reply: ResumeReply)
      requires Valid()
      modifies this`nextSubID, this`subscribers
      ensures Valid() && fresh(sub) && id !in old(subscribers) && subscribers == old(subscribers)[id := sub]
      ensures sub.accountId == TrimSpace(account) && sub.queue == []
      ensures sub.buffer == if requestedBuffer <= 0 then DEFAULT_BUFFER else requestedBuffer
      ensures reply.outcome == Resume(epoch, log, replayCapacity, sub.accountId, TrimSpace(lastEventID))
      ensures reply.current == Cursor(epoch, |log|)
    {
      var buffer := if requestedBuffer <= 0 then DEFAULT_BUFFER else requestedBuffer;
      sub := new Subscriber(TrimSpace(account), buffer);
      reply := ResumeFrom(sub.accountId, TrimSpace(lastEventID));
      nextSubID := nextSubID + 1;
      id := nextSubID;
      subscribers := subscribers[id := sub];
    }

    /** Removing and closing happen together, so a registered channel is never a closed one. */
    method Unsubscribe(id: nat)
      requires Valid()
      modifies this`subscribers, subscribers.Values
      ensures Valid() && subscribers == old(subscribers) - {id}
      ensures id in old(subscribers) ==> old(subscribers[id]).closed
      ensures forall i | i in subscribers :: subscribers[i].queue == old(subscribers[i].queue)
    {
      if id in subscribers {
        subscribers[id].closed := true;
        subscribers := subscribers - {id};
      }
    }
  }
}
