/**
 A consumer of the hub over any number of connections: it reads, disconnects at any moment, and comes back with
 the last event ID it received; meanwhile events are published, its queue may overflow, and the server may
 restart with a new epoch and an empty log.
 */
module EventSession {
  import opened Wrappers
  import opened Text
  import opened EventSpec

  /**
   An open connection. `pending` is the replay still to be written (or the gap frame), `queue` the subscriber's
   channel. The rest is history: where in the log the subscription began, whether the pending frame is a gap
   marker, and at which event the queue last overflowed.
   */
  datatype Connection = Connection(pending: seq<Event>, queue: seq<Event>, start: nat, marked: bool, overflow: Option<nat>)

  /** Where the consumer's reading began: after item `mark` of what it received, at position `anchor` of the log of
      `epoch`; `last` is the position of the last thing received. */
  datatype Base = Base(epoch: string, anchor: nat, mark: nat, last: nat)

  datatype State = State(epoch: string, logs: map<string, seq<Event>>, connection: Option<Connection>,
                         lastId: string, received: seq<Event>, base: Base)

  /** The subscription: account filter, channel size, and the hub's history capacity. */
  datatype Setting = Setting(accountId: string, buffer: nat, capacity: nat)

  datatype Action =
    | Publish(raw: Event)
    | Subscribe
    | Receive
    | Disconnect
    | Restart(epoch: string)

  function Init(epoch: string): State {
    State(epoch, map[epoch := []], None, "", [], Base(epoch, 0, 0, 0))
  }

  function Log(s: State): seq<Event> {
    if s.epoch in s.logs then s.logs[s.epoch] else []
  }

  function BaseLog(s: State): seq<Event> {
    if s.base.epoch in s.logs then s.logs[s.base.epoch] else []
  }

  predicate Enabled(s: State, act: Action) {
    match act
    case Publish(_) => |Log(s)| + 1 < UINT64_LIMIT
    case Subscribe => s.connection.None?
    case Receive => s.connection.Some? && (s.connection.value.pending != [] || s.connection.value.queue != [])
    case Disconnect => s.connection.Some?
    case Restart(epoch) => epoch != "" && epoch !in s.logs
  }

  /** The frame a refused resumption starts with. */
  function GapFrame(s: State, filter: Setting, reason: string): Event {
    Event(Cursor(s.epoch, |Log(s)|), TYPE_GAP, if filter.accountId == "" then [] else [filter.accountId], reason)
  }

  function Step(s: State, act: Action, filter: Setting): State
    requires Enabled(s, act)
  {
    match act
    case Publish(raw) => StepPublish(s, Stamped(s.epoch, |Log(s)| + 1, raw), filter)
    case Subscribe =>
      StepSubscribe(s, Resume(s.epoch, Log(s), filter.capacity, filter.accountId, TrimSpace(s.lastId)), filter)
    case Receive => StepReceive(s, NumberOf(NextEvent(s)))
    case Disconnect => s.(connection := None)
    case Restart(epoch) => s.(epoch := epoch, logs := s.logs[epoch := []], connection := None)
  }

  function StepPublish(s: State, event: Event, filter: Setting): State {
    var t := s.(logs := s.logs[s.epoch := Log(s) + [event]]);
    match s.connection
    case None => t
    case Some(c) =>
      var queue := Offer(c.queue, filter.accountId, filter.buffer, event);
      var overflowed := Matches(filter.accountId, event) && |c.queue| >= filter.buffer;
      t.(connection := Some(c.(queue := queue, overflow := if overflowed then Some(|Log(s)| + 1) else c.overflow)))
  }

  function StepSubscribe(s: State, answer: Resumption, filter: Setting): State {
    var n := |Log(s)|;
    match answer
    case Fresh =>
      s.(connection := Some(Connection([], [], n, false, None)), base := Base(s.epoch, n, |s.received|, n))
    case Gap(reason) =>
      s.(connection := Some(Connection([GapFrame(s, filter, reason)], [], n, true, None)))
    case Resumed(events) =>
      s.(connection := Some(Connection(events, [], n, false, None)))
  }

  /** The number printed in an event's own cursor. */
  function NumberOf(event: Event): nat {
    match ParseCursor(event.id)
    case Some(p) => p.sequence
    case None => 0
  }

  /** The stream handler writes the replay before it turns to the channel. */
  function NextEvent(s: State): Event
    requires Enabled(s, Receive)
  {
    var c := s.connection.value;
    if c.pending != [] then c.pending[0] else c.queue[0]
  }

  function StepReceive(s: State, number: nat): State
    requires Enabled(s, Receive)
  {
    var c := s.connection.value;
    var event := NextEvent(s);
    var marker := if c.pending != [] then c.marked else c.overflow.Some?;
    var received := s.received + [event];
    var base := if marker then Base(s.epoch, number, |received|, number)
                else s.base.(last := number);
    var c' := if c.pending != [] then c.(pending := c.pending[1..], marked := false)
              else c.(queue := c.queue[1..], overflow := None);
    s.(connection := Some(c'), lastId := event.id, received := received, base := base)
  }

  // The invariant

  ghost predicate LogsOk(s: State) {
    && s.epoch in s.logs
    && forall e | e in s.logs :: e != "" && |s.logs[e]| < UINT64_LIMIT && Numbered(s.logs[e], e)
  }

  /** What has been received since the latest marker is exactly what matched up to the last position. */
  ghost predicate ReceivedOk(s: State, filter: Setting) {
    var b := s.base;
    && b.epoch in s.logs && b.anchor <= b.last <= |BaseLog(s)| && b.mark <= |s.received|
    && s.received[b.mark..] == Matching(BaseLog(s), filter.accountId, b.anchor, b.last)
    && (s.lastId == "" ==> s.received == [] && b.anchor == b.last)
    && (s.lastId != "" ==> s.lastId == Cursor(b.epoch, b.last))
    && (0 < b.mark ==> s.received[b.mark - 1].kind == TYPE_GAP && s.received[b.mark - 1].id == Cursor(b.epoch, b.anchor))
  }

  ghost predicate PendingOk(s: State, filter: Setting, c: Connection) {
    && c.start <= |Log(s)|
    && if c.marked then
         && |c.pending| == 1 && c.pending[0].kind == TYPE_GAP && c.pending[0].id == Cursor(s.epoch, c.start)
         && (s.lastId != "" && s.base.epoch == s.epoch ==> s.base.last < c.start)
       else
         && s.base.epoch == s.epoch
         && c.pending == Matching(Log(s), filter.accountId, s.base.last, c.start)
  }

  /** Where the queue's events begin. */
  function QueueStart(s: State, c: Connection): nat {
    if !c.marked && c.start < s.base.last then s.base.last else c.start
  }

  ghost predicate QueueOk(s: State, filter: Setting, c: Connection) {
    && |c.queue| <= filter.buffer
    && match c.overflow
       case None => c.queue == Matching(Log(s), filter.accountId, QueueStart(s, c), |Log(s)|)
       case Some(m) =>
         && c.start < m <= |Log(s)| && QueueStart(s, c) < m && c.queue != []
         && c.queue[0].kind == TYPE_GAP && c.queue[0].id == Cursor(s.epoch, m)
         && c.queue[1..] == Matching(Log(s), filter.accountId, m, |Log(s)|)
  }

  ghost predicate Inv(s: State, filter: Setting) {
    && LogsOk(s) && ReceivedOk(s, filter) && filter.buffer >= 1
    && (s.connection.Some? ==> PendingOk(s, filter, s.connection.value) && QueueOk(s, filter, s.connection.value))
  }

  lemma NumberOfCursor(event: Event, epoch: string, n: nat)
    requires epoch != "" && n < UINT64_LIMIT && event.id == Cursor(epoch, n)
    ensures NumberOf(event) == n
  {
    ParseCursorInverts(epoch, n);
  }

  /** What the hub answers to the consumer's last ID, whichever epoch it is from. */
  ghost predicate Answer(s: State, r: Resumption, filter: Setting) {
    if s.lastId == "" then r == Fresh
    else if s.base.epoch == s.epoch && Evicted(Log(s), filter.capacity) <= s.base.last <= |Log(s)| then
      r == Resumed(Matching(Log(s), filter.accountId, s.base.last, |Log(s)|))
    else r.Gap?
  }

  lemma ResumeAnswers(s: State, filter: Setting)
    requires s.lastId != "" ==> s.lastId == Cursor(s.base.epoch, s.base.last) && s.base.epoch != "" && s.base.last < UINT64_LIMIT
    requires s.base.epoch == s.epoch ==> s.base.last <= |Log(s)|
    ensures Answer(s, Resume(s.epoch, Log(s), filter.capacity, filter.accountId, TrimSpace(s.lastId)), filter)
  {
    if s.lastId != "" {
      CursorKeepsItself(s.base.epoch, s.base.last);
      ParseCursorInverts(s.base.epoch, s.base.last);
    }
  }

  // Every step keeps the invariant

  lemma PublishQueueOk(s: State, t: State, event: Event, filter: Setting)
    requires Inv(s, filter) && s.connection.Some? && event.id == Cursor(s.epoch, |Log(s)| + 1)
    requires t == StepPublish(s, event, filter)
    ensures QueueOk(t, filter, t.connection.value)
  {
    var c := s.connection.value;
    assert Log(t) == Log(s) + [event] && QueueStart(t, t.connection.value) == QueueStart(s, c);
    MatchingNext(Log(s), event, filter.accountId, if c.overflow.Some? then c.overflow.value else QueueStart(s, c));
    QueueStartInLog(s, filter, c);
    OfferedQueueOk(s, t, event, filter);
  }

  lemma MatchingNext(log: seq<Event>, event: Event, accountId: string, from: nat)
    requires from <= |log|
    ensures Matching(log + [event], accountId, from, |log| + 1)
         == Matching(log, accountId, from, |log|) + (if Matches(accountId, event) then [event] else [])
    ensures Matching(log + [event], accountId, |log| + 1, |log| + 1) == []
  {
    MatchingStays(log, log + [event], accountId, from, |log|);
  }

  lemma QueueStartInLog(s: State, filter: Setting, c: Connection)
    requires ReceivedOk(s, filter) && PendingOk(s, filter, c)
    ensures QueueStart(s, c) <= |Log(s)|
  {
  }

  lemma OfferedQueueOk(s: State, t: State, event: Event, filter: Setting)
    requires s.connection.Some? && QueueOk(s, filter, s.connection.value) && filter.buffer >= 1
    requires t == StepPublish(s, event, filter) && event.id == Cursor(s.epoch, |Log(s)| + 1)
    requires Log(t) == Log(s) + [event] && QueueStart(t, t.connection.value) == QueueStart(s, s.connection.value) <= |Log(s)|
    requires s.connection.value.start <= |Log(s)|
    requires var c := s.connection.value;
             var from := if c.overflow.Some? then c.overflow.value else QueueStart(s, c);
             && Matching(Log(t), filter.accountId, from, |Log(t)|)
                == Matching(Log(s), filter.accountId, from, |Log(s)|)
                   + (if Matches(filter.accountId, event) then [event] else [])
             && Matching(Log(t), filter.accountId, |Log(t)|, |Log(t)|) == []
    ensures QueueOk(t, filter, t.connection.value)
  {
  }

  lemma PublishLogOk(s: State, event: Event, filter: Setting)
    requires LogsOk(s) && ReceivedOk(s, filter)
    requires |Log(s)| + 1 < UINT64_LIMIT && event.id == Cursor(s.epoch, |Log(s)| + 1)
    ensures LogsOk(StepPublish(s, event, filter)) && ReceivedOk(StepPublish(s, event, filter), filter)
  {
    var t := StepPublish(s, event, filter);
    assert LogsOk(t) by {
      assert Numbered(Log(s), s.epoch);
      assert Numbered(Log(s) + [event], s.epoch);
    }
    MatchingStays(BaseLog(s), BaseLog(t), filter.accountId, s.base.anchor, s.base.last);
  }

  lemma PublishKeeps(s: State, event: Event, filter: Setting)
    requires Inv(s, filter) && |Log(s)| + 1 < UINT64_LIMIT && event.id == Cursor(s.epoch, |Log(s)| + 1)
    ensures Inv(StepPublish(s, event, filter), filter)
  {
    var t := StepPublish(s, event, filter);
    PublishLogOk(s, event, filter);
    if s.connection.Some? {
      PublishQueueOk(s, t, event, filter);
      if !s.connection.value.marked {
        MatchingStays(Log(s), Log(t), filter.accountId, s.base.last, s.connection.value.start);
      }
    }
  }

  lemma SubscribeKeeps(s: State, r: Resumption, filter: Setting)
    requires Inv(s, filter) && s.connection.None? && Answer(s, r, filter)
    ensures Inv(StepSubscribe(s, r, filter), filter)
  {
    var t := StepSubscribe(s, r, filter);
    if r.Fresh? {
      assert t.received[t.base.mark..] == [];
    }
  }

  /** A marker starts the reading afresh at its own number. */
  lemma ReceiveMarkerKeeps(s: State, number: nat, filter: Setting)
    requires Inv(s, filter) && Enabled(s, Receive)
    requires var c := s.connection.value;
             if c.pending != [] then c.marked && number == c.start else c.overflow == Some(number)
    ensures Inv(StepReceive(s, number), filter)
  {
    MarkerReads(s, number, filter);
    MarkerLeavesConnection(s, number, filter);
  }

  lemma MarkerReads(s: State, number: nat, filter: Setting)
    requires LogsOk(s) && Enabled(s, Receive) && number <= |Log(s)|
    requires NextEvent(s).kind == TYPE_GAP && NextEvent(s).id == Cursor(s.epoch, number)
    requires var c := s.connection.value; if c.pending != [] then c.marked else c.overflow.Some?
    ensures ReceivedOk(StepReceive(s, number), filter)
  {
    var t := StepReceive(s, number);
    assert t.received[t.base.mark..] == [];
  }

  lemma MarkerLeavesConnection(s: State, number: nat, filter: Setting)
    requires Enabled(s, Receive) && PendingOk(s, filter, s.connection.value) && QueueOk(s, filter, s.connection.value)
    requires var c := s.connection.value;
             if c.pending != [] then c.marked && number == c.start else c.overflow == Some(number)
    ensures var t := StepReceive(s, number);
            PendingOk(t, filter, t.connection.value) && QueueOk(t, filter, t.connection.value)
  {
    var c := s.connection.value;
    if c.pending != [] { assert c.pending[1..] == []; }
  }

  /** An event of the log received in order extends what was received before it. */
  lemma ReceivedExtends(s: State, j: nat, filter: Setting)
    requires LogsOk(s) && ReceivedOk(s, filter) && s.base.epoch == s.epoch && s.base.last <= j < |Log(s)|
    requires Matches(filter.accountId, Log(s)[j]) && Matching(Log(s), filter.accountId, s.base.last, j) == []
    ensures (s.received + [Log(s)[j]])[s.base.mark..] == Matching(Log(s), filter.accountId, s.base.anchor, j + 1)
  {
    MatchingSplit(Log(s), filter.accountId, s.base.anchor, s.base.last, j);
    assert (s.received + [Log(s)[j]])[s.base.mark..] == s.received[s.base.mark..] + [Log(s)[j]];
  }

  lemma ReceivePendingKeeps(s: State, j: nat, filter: Setting)
    requires Inv(s, filter) && Enabled(s, Receive) && s.connection.value.pending != [] && !s.connection.value.marked
    requires s.base.last <= j < s.connection.value.start
    requires Matches(filter.accountId, Log(s)[j]) && Matching(Log(s), filter.accountId, s.base.last, j) == []
    requires s.connection.value.pending == [Log(s)[j]] + Matching(Log(s), filter.accountId, j + 1, s.connection.value.start)
    ensures Inv(StepReceive(s, j + 1), filter)
  {
    var t := StepReceive(s, j + 1);
    ReceivePendingReads(s, j, filter);
    var c := s.connection.value;
    assert QueueStart(t, t.connection.value) == QueueStart(s, c) == c.start;
  }

  lemma ReceivePendingReads(s: State, j: nat, filter: Setting)
    requires LogsOk(s) && ReceivedOk(s, filter) && Enabled(s, Receive) && PendingOk(s, filter, s.connection.value)
    requires s.connection.value.pending != [] && !s.connection.value.marked && s.base.last <= j < s.connection.value.start
    requires Matches(filter.accountId, Log(s)[j]) && Matching(Log(s), filter.accountId, s.base.last, j) == []
    requires s.connection.value.pending == [Log(s)[j]] + Matching(Log(s), filter.accountId, j + 1, s.connection.value.start)
    ensures var t := StepReceive(s, j + 1); ReceivedOk(t, filter) && PendingOk(t, filter, t.connection.value)
  {
    var t := StepReceive(s, j + 1);
    assert Numbered(Log(s), s.epoch) && Log(s)[j].id == Cursor(s.epoch, j + 1);
    AdvancedReads(s, t, j, filter);
    PendingShrinks(s, j, filter);
  }

  lemma PendingShrinks(s: State, j: nat, filter: Setting)
    requires Enabled(s, Receive) && PendingOk(s, filter, s.connection.value) && !s.connection.value.marked && j < |Log(s)|
    requires s.connection.value.pending == [Log(s)[j]] + Matching(Log(s), filter.accountId, j + 1, s.connection.value.start)
    ensures var t := StepReceive(s, j + 1); PendingOk(t, filter, t.connection.value)
  {
    var c, t := s.connection.value, StepReceive(s, j + 1);
    assert t.connection.value.pending == c.pending[1..];
  }

  /** One more event of the log read, with its cursor. */
  lemma AdvancedReads(s: State, t: State, j: nat, filter: Setting)
    requires LogsOk(s) && ReceivedOk(s, filter) && s.base.epoch == s.epoch && s.base.last <= j < |Log(s)|
    requires Matches(filter.accountId, Log(s)[j]) && Matching(Log(s), filter.accountId, s.base.last, j) == []
    requires t.logs == s.logs && t.base == s.base.(last := j + 1) && t.received == s.received + [Log(s)[j]]
    requires t.lastId == Cursor(s.epoch, j + 1) && t.lastId != ""
    ensures ReceivedOk(t, filter)
  {
    ReceivedExtends(s, j, filter);
  }

  lemma ReceiveQueuedKeeps(s: State, j: nat, filter: Setting)
    requires Inv(s, filter) && Enabled(s, Receive) && s.connection.value.pending == [] && s.connection.value.overflow.None?
    requires !s.connection.value.marked && QueueStart(s, s.connection.value) <= j < |Log(s)|
    requires Matches(filter.accountId, Log(s)[j])
    requires Matching(Log(s), filter.accountId, QueueStart(s, s.connection.value), j) == []
    requires s.connection.value.queue == [Log(s)[j]] + Matching(Log(s), filter.accountId, j + 1, |Log(s)|)
    ensures Inv(StepReceive(s, j + 1), filter)
  {
    MatchingSplit(Log(s), filter.accountId, s.base.last, QueueStart(s, s.connection.value), j);
    ReceivedExtends(s, j, filter);
    assert Numbered(Log(s), s.epoch);
  }

  /** The next event's number is readable off its cursor, and receiving it keeps the invariant. */
  ghost predicate Receivable(s: State, number: nat, filter: Setting)
    requires Enabled(s, Receive)
  {
    && NextEvent(s).id == Cursor(s.epoch, number) && number < UINT64_LIMIT && s.epoch != ""
    && Inv(StepReceive(s, number), filter)
  }

  lemma NextPending(s: State, filter: Setting) returns (number: nat)
    requires Inv(s, filter) && Enabled(s, Receive) && s.connection.value.pending != [] && !s.connection.value.marked
    ensures Receivable(s, number, filter)
  {
    var j := NextMatch(Log(s), filter.accountId, s.base.last, s.connection.value.start);
    assert Numbered(Log(s), s.epoch);
    number := j + 1;
    ReceivePendingKeeps(s, j, filter);
  }

  lemma NextQueued(s: State, filter: Setting) returns (number: nat)
    requires Inv(s, filter) && Enabled(s, Receive) && s.connection.value.pending == [] && s.connection.value.overflow.None?
    ensures Receivable(s, number, filter)
  {
    var log, start := Log(s), QueueStart(s, s.connection.value);
    var j := NextMatch(log, filter.accountId, start, |log|);
    assert Numbered(log, s.epoch);
    number := j + 1;
    ReceiveQueuedKeeps(s, j, filter);
  }

  lemma NextNumber(s: State, filter: Setting) returns (number: nat)
    requires Inv(s, filter) && Enabled(s, Receive)
    ensures Receivable(s, number, filter)
  {
    var c := s.connection.value;
    if c.pending != [] && !c.marked {
      number := NextPending(s, filter);
    } else if c.pending == [] && c.overflow.None? {
      number := NextQueued(s, filter);
    } else {
      number := if c.pending != [] then c.start else c.overflow.value;
      ReceiveMarkerKeeps(s, number, filter);
    }
  }

  lemma ReceiveKeeps(s: State, filter: Setting)
    requires Inv(s, filter) && Enabled(s, Receive)
    ensures Inv(Step(s, Receive, filter), filter)
  {
    var number := NextNumber(s, filter);
    NumberOfCursor(NextEvent(s), s.epoch, number);
  }

  lemma RestartKeeps(s: State, epoch: string, filter: Setting)
    requires Inv(s, filter) && epoch != "" && epoch !in s.logs
    ensures Inv(s.(epoch := epoch, logs := s.logs[epoch := []], connection := None), filter)
  {
    var t := s.(epoch := epoch, logs := s.logs[epoch := []], connection := None);
    assert BaseLog(t) == BaseLog(s);
  }

  lemma AnsweredKeeps(s: State, filter: Setting)
    requires Inv(s, filter) && s.connection.None?
    ensures Inv(Step(s, Subscribe, filter), filter)
  {
    ResumeAnswers(s, filter);
    SubscribeKeeps(s, Resume(s.epoch, Log(s), filter.capacity, filter.accountId, TrimSpace(s.lastId)), filter);
  }

  lemma StepKeeps(s: State, act: Action, filter: Setting)
    requires Inv(s, filter) && Enabled(s, act)
    ensures Inv(Step(s, act, filter), filter)
  {
    match act
    case Publish(raw) => PublishKeeps(s, Stamped(s.epoch, |Log(s)| + 1, raw), filter);
    case Subscribe => AnsweredKeeps(s, filter);
    case Receive => ReceiveKeeps(s, filter);
    case Disconnect =>
    case Restart(epoch) => RestartKeeps(s, epoch, filter);
  }

  // Whole runs

  ghost predicate Run(states: seq<State>, acts: seq<Action>, filter: Setting) {
    && |states| == |acts| + 1 && states[0].epoch != "" && states[0] == Init(states[0].epoch) && filter.buffer >= 1
    && forall i | 0 <= i < |acts| :: Next(states[i], acts[i], states[i + 1], filter)
  }

  ghost predicate Next(s: State, act: Action, t: State, filter: Setting) {
    Enabled(s, act) && t == Step(s, act, filter)
  }

  lemma RunExtends(states: seq<State>, acts: seq<Action>, act: Action, t: State, filter: Setting)
    requires Run(states, acts, filter) && Next(states[|acts|], act, t, filter)
    ensures Run(states + [t], acts + [act], filter)
  {
    var longer := states + [t];
    forall i | 0 <= i < |acts + [act]| ensures Next(longer[i], (acts + [act])[i], longer[i + 1], filter) {
      StepOf(states, acts, act, t, filter, i);
    }
  }

  lemma StepOf(states: seq<State>, acts: seq<Action>, act: Action, t: State, filter: Setting, i: nat)
    requires Run(states, acts, filter) && Next(states[|acts|], act, t, filter) && i <= |acts|
    ensures Next((states + [t])[i], (acts + [act])[i], (states + [t])[i + 1], filter)
  {
    if i < |acts| {
      assert Next(states[i], acts[i], states[i + 1], filter);
    }
  }

  lemma {:induction false} RunKeeps(states: seq<State>, acts: seq<Action>, filter: Setting, i: nat)
    requires Run(states, acts, filter) && i < |states|
    ensures Inv(states[i], filter)
  {
    if i > 0 {
      var k := i - 1;
      RunKeeps(states, acts, filter, k);
      assert Next(states[k], acts[k], states[k + 1], filter);
      StepKeeps(states[k], acts[k], filter);
    }
  }

  predicate IsMarker(e: Event, epoch: string, number: nat) {
    e.kind == TYPE_GAP && e.id == Cursor(epoch, number)
  }

  /**
   What the consumer received since its latest gap marker (or since its first subscription) is exactly what
   matched up to its position. While it is connected, received and queued events together are exactly
   everything that matched from there to the end of the log; or, when a marker is still on its way, everything
   behind that marker is exactly what matched after the marker's own number.
   */
  ghost predicate Exact(s: State, filter: Setting) {
    var b := s.base;
    && b.mark <= |s.received| && b.anchor <= b.last <= |BaseLog(s)|
    && s.received[b.mark..] == Matching(BaseLog(s), filter.accountId, b.anchor, b.last)
    && (b.mark > 0 ==> IsMarker(s.received[b.mark - 1], b.epoch, b.anchor))
    && (s.connection.Some? ==> ExactlyQueued(s, s.connection.value, filter))
  }

  ghost predicate ExactlyQueued(s: State, c: Connection, filter: Setting)
    requires s.base.mark <= |s.received|
  {
    var log, a := Log(s), filter.accountId;
    && |c.queue| <= filter.buffer
    && if c.overflow.Some? then
         && c.queue != [] && c.overflow.value <= |log| && IsMarker(c.queue[0], s.epoch, c.overflow.value)
         && c.queue[1..] == Matching(log, a, c.overflow.value, |log|)
       else if c.marked then
         |c.pending| == 1 && IsMarker(c.pending[0], s.epoch, c.start) && c.queue == Matching(log, a, c.start, |log|)
       else
         && s.base.epoch == s.epoch
         && s.received[s.base.mark..] + c.pending + c.queue == Matching(log, a, s.base.anchor, |log|)
  }

  lemma InvExact(s: State, filter: Setting)
    requires Inv(s, filter)
    ensures Exact(s, filter)
  {
    if s.connection.Some? {
      if !s.connection.value.marked && s.connection.value.overflow.None? {
        NothingMissing(s, s.connection.value, filter);
      }
      QueuedExactly(s, s.connection.value, filter);
    }
  }

  /** Received, pending and queued events are one stretch of the matches. */
  lemma NothingMissing(s: State, c: Connection, filter: Setting)
    requires LogsOk(s) && ReceivedOk(s, filter) && PendingOk(s, filter, c) && QueueOk(s, filter, c)
    requires !c.marked && c.overflow.None?
    ensures s.received[s.base.mark..] + c.pending + c.queue == Matching(Log(s), filter.accountId, s.base.anchor, |Log(s)|)
  {
    var b, log, a := s.base, Log(s), filter.accountId;
    MatchingSplit(log, a, b.anchor, b.last, |log|);
    MatchingSplit(log, a, b.last, QueueStart(s, c), |log|);
  }

  lemma QueuedExactly(s: State, c: Connection, filter: Setting)
    requires s.base.mark <= |s.received| && PendingOk(s, filter, c) && QueueOk(s, filter, c)
    requires !c.marked && c.overflow.None? ==>
               s.received[s.base.mark..] + c.pending + c.queue == Matching(Log(s), filter.accountId, s.base.anchor, |Log(s)|)
    ensures ExactlyQueued(s, c, filter)
  {
  }

  /** In every state of every run nothing is lost unannounced and nothing is delivered twice. */
  lemma NothingLostNothingTwice(states: seq<State>, acts: seq<Action>, filter: Setting, i: nat)
    requires Run(states, acts, filter) && i < |states|
    ensures Exact(states[i], filter)
  {
    RunKeeps(states, acts, filter, i);
    InvExact(states[i], filter);
  }

  lemma SubscribeMovesBase(s: State, filter: Setting)
    requires Inv(s, filter) && Enabled(s, Subscribe) && Step(s, Subscribe, filter).base != s.base
    ensures s.received == []
  {
    ResumeAnswers(s, filter);
  }

  lemma ReceiveMovesBase(s: State, number: nat, filter: Setting)
    requires Enabled(s, Receive)
    ensures var b, t := s.base, StepReceive(s, number);
            (b.epoch, b.anchor, b.mark) == (t.base.epoch, t.base.anchor, t.base.mark)
            || t.base.mark == |t.received| > 0
  {
  }

  predicate SameBase(b: Base, b': Base) {
    b.epoch == b'.epoch && b.anchor == b'.anchor && b.mark == b'.mark
  }

  /** The reading starts afresh only by receiving a marker, or by a subscription of a consumer that has never
      received anything: no loss goes unannounced. */
  lemma LossIsAnnounced(s: State, act: Action, filter: Setting)
    requires Inv(s, filter) && Enabled(s, act) && !SameBase(s.base, Step(s, act, filter).base)
    ensures var t := Step(s, act, filter);
            if act.Receive? then t.received != [] && IsMarker(t.received[|t.received| - 1], t.base.epoch, t.base.anchor)
            else act.Subscribe? && s.received == []
  {
    if act.Receive? {
      ReceiveMovesBase(s, NumberOf(NextEvent(s)), filter);
      ReceiveKeeps(s, filter);
      assert ReceivedOk(Step(s, act, filter), filter);
    } else if act.Subscribe? {
      SubscribeMovesBase(s, filter);
    }
  }
}
