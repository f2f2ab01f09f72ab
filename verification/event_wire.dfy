/**
 A consumer at the other end of a byte stream. The server writes frames as it takes events from the replay and the
 queue; the connection is cut after any character, wherever the server has got to by then; and the client comes back
 with the ID its reader holds.
 */
module EventWire {
  import opened EventSpec
  import opened EventSession
  import opened SseStream
  import opened Wrappers

  /** What a connection carries: hub events, and the connected and heartbeat frames, which have no ID. */
  datatype Item = Carried(event: Event) | Service(kind: string, body: string)

  /** The server's side of one connection. */
  datatype Move = Publishes(raw: Event) | Sends | Serves(kind: string, body: string)

  /** The marshalled body of an event, and the subscription. */
  datatype Wire = Wire(marshal: Event -> string, filter: Setting)

  function FrameOf(item: Item, marshal: Event -> string): Frame {
    match item
    case Carried(event) => Frame(event.id, event.kind, marshal(event))
    case Service(kind, body) => Frame("", kind, body)
  }

  function FramesOf(items: seq<Item>, marshal: Event -> string): seq<Frame> {
    if items == [] then [] else [FrameOf(items[0], marshal)] + FramesOf(items[1..], marshal)
  }

  function EventsOf(items: seq<Item>): seq<Event> {
    if items == [] then [] else (if items[0].Carried? then [items[0].event] else []) + EventsOf(items[1..])
  }

  // The server's moves

  predicate Movable(s: State, move: Move, w: Wire) {
    match move
    case Publishes(raw) => EventSession.Enabled(s, Publish(raw))
    case Sends => EventSession.Enabled(s, Receive) && Writable(FrameOf(Carried(NextEvent(s)), w.marshal))
    case Serves(kind, body) => Writable(Frame("", kind, body))
  }

  /** Taking an event off the replay or the queue is what the session calls receiving; a service frame changes nothing. */
  function Moved(s: State, move: Move, w: Wire): State
    requires Movable(s, move, w)
  {
    match move
    case Publishes(raw) => Step(s, Publish(raw), w.filter)
    case Sends => Step(s, Receive, w.filter)
    case Serves(_, _) => s
  }

  predicate Possible(s: State, moves: seq<Move>, w: Wire)
    decreases |moves|
  {
    moves == [] || (Movable(s, moves[0], w) && Possible(Moved(s, moves[0], w), moves[1..], w))
  }

  /** The server's state after its moves: it has taken off everything it has written. */
  function Served(s: State, moves: seq<Move>, w: Wire): State
    requires Possible(s, moves, w)
    decreases |moves|
  {
    if moves == [] then s else Served(Moved(s, moves[0], w), moves[1..], w)
  }

  /** What it has written. */
  function Written(s: State, moves: seq<Move>, w: Wire): seq<Item>
    requires Possible(s, moves, w)
    decreases |moves|
  {
    if moves == [] then []
    else
      var rest := Written(Moved(s, moves[0], w), moves[1..], w);
      match moves[0]
      case Publishes(_) => rest
      case Sends => [Carried(NextEvent(s))] + rest
      case Serves(kind, body) => [Service(kind, body)] + rest
  }

  // The session the client has seen

  /** The moves as session steps, as far as the first k frames reach: later frames were never received. */
  function Seen(moves: seq<Move>, k: nat): seq<Action> {
    if moves == [] then []
    else match moves[0]
      case Publishes(raw) => [Publish(raw)] + Seen(moves[1..], k)
      case Sends => if k == 0 then Seen(moves[1..], 0) else [Receive] + Seen(moves[1..], k - 1)
      case Serves(_, _) => Seen(moves[1..], if k == 0 then 0 else k - 1)
  }

  predicate Steps(s: State, acts: seq<Action>, filter: Setting)
    decreases |acts|
  {
    acts == [] || (EventSession.Enabled(s, acts[0]) && Steps(Step(s, acts[0], filter), acts[1..], filter))
  }

  function Stepped(s: State, acts: seq<Action>, filter: Setting): State
    requires Steps(s, acts, filter)
    decreases |acts|
  {
    if acts == [] then s else Stepped(Step(s, acts[0], filter), acts[1..], filter)
  }

  lemma {:induction false} StepsKeep(s: State, acts: seq<Action>, filter: Setting)
    requires Inv(s, filter) && Steps(s, acts, filter)
    ensures Inv(Stepped(s, acts, filter), filter)
    decreases |acts|
  {
    if acts != [] {
      StepKeeps(s, acts[0], filter);
      StepsKeep(Step(s, acts[0], filter), acts[1..], filter);
    }
  }

  lemma StepsFirst(s: State, act: Action, acts: seq<Action>, filter: Setting)
    requires EventSession.Enabled(s, act) && Steps(Step(s, act, filter), acts, filter)
    ensures Steps(s, [act] + acts, filter) && Stepped(s, [act] + acts, filter) == Stepped(Step(s, act, filter), acts, filter)
  {
    assert ([act] + acts)[1..] == acts;
  }

  /** The same hub, whatever was taken off the connection. */
  predicate SameHub(s: State, t: State) {
    s.epoch == t.epoch && s.logs == t.logs && s.connection.Some? && t.connection.Some?
  }

  /** What the client holds. */
  predicate SameClient(s: State, t: State) {
    s.lastId == t.lastId && s.received == t.received && s.base == t.base
  }

  lemma PublishAlike(s: State, t: State, raw: Event, filter: Setting)
    requires SameHub(s, t) && EventSession.Enabled(s, Publish(raw))
    ensures EventSession.Enabled(t, Publish(raw)) && SameHub(Step(s, Publish(raw), filter), Step(t, Publish(raw), filter))
    ensures SameClient(t, Step(t, Publish(raw), filter))
  {
  }

  lemma TakenOff(s: State, number: nat)
    requires EventSession.Enabled(s, Receive)
    ensures SameHub(s, StepReceive(s, number))
  {
  }

  /** Frames that never arrive change nothing but the hub. */
  lemma {:induction false} RestUnseen(s: State, t: State, moves: seq<Move>, w: Wire)
    requires SameHub(s, t) && Possible(s, moves, w)
    ensures Steps(t, Seen(moves, 0), w.filter)
    ensures SameHub(Served(s, moves, w), Stepped(t, Seen(moves, 0), w.filter))
    ensures SameClient(t, Stepped(t, Seen(moves, 0), w.filter))
    decreases |moves|
  {
    if moves != [] {
      var s' := Moved(s, moves[0], w);
      match moves[0]
      case Publishes(raw) =>
        PublishAlike(s, t, raw, w.filter);
        var t' := Step(t, Publish(raw), w.filter);
        RestUnseen(s', t', moves[1..], w);
        StepsFirst(t, Publish(raw), Seen(moves[1..], 0), w.filter);
      case Sends =>
        TakenOff(s, NumberOf(NextEvent(s)));
        RestUnseen(s', t, moves[1..], w);
      case Serves(_, _) =>
        RestUnseen(s', t, moves[1..], w);
    }
  }

  /** What the session has after the frames that arrived is what those frames say. */
  ghost predicate SeenOk(s: State, moves: seq<Move>, k: nat, w: Wire)
    requires Possible(s, moves, w) && k <= |Written(s, moves, w)|
  {
    && Steps(s, Seen(moves, k), w.filter)
    && SameHub(Served(s, moves, w), Stepped(s, Seen(moves, k), w.filter))
    && Reads(s, Stepped(s, Seen(moves, k), w.filter), Written(s, moves, w), k, w.marshal)
  }

  /** From s to t the client reads the first k of the items. */
  ghost predicate Reads(s: State, t: State, items: seq<Item>, k: nat, marshal: Event -> string)
    requires k <= |items|
  {
    && |FramesOf(items, marshal)| == |items|
    && t.lastId == LastId(FramesOf(items, marshal)[..k], s.lastId)
    && t.received == s.received + EventsOf(items[..k])
  }

  lemma {:induction false} FramesAreAsMany(items: seq<Item>, marshal: Event -> string)
    ensures |FramesOf(items, marshal)| == |items|
    decreases |items|
  {
    if items != [] {
      FramesAreAsMany(items[1..], marshal);
    }
  }

  lemma NothingSeen(s: State, moves: seq<Move>, w: Wire)
    requires Possible(s, moves, w) && s.connection.Some?
    ensures SeenOk(s, moves, 0, w)
  {
    FramesAreAsMany(Written(s, moves, w), w.marshal);
    RestUnseen(s, s, moves, w);
    assert s.received + [] == s.received;
  }

  /** The next event carries its cursor. */
  lemma NextHasId(s: State, filter: Setting)
    requires Inv(s, filter) && EventSession.Enabled(s, Receive)
    ensures NextEvent(s).id != ""
  {
    var number := NextNumber(s, filter);
  }

  lemma FirstItem(item: Item, items: seq<Item>, k: nat, id: string, marshal: Event -> string)
    requires 0 < k <= |items| + 1
    ensures var all := [item] + items;
            && |FramesOf(items, marshal)| == |items| && |FramesOf(all, marshal)| == |all|
            && LastId(FramesOf(all, marshal)[..k], id)
               == LastId(FramesOf(items, marshal)[..k - 1], NextId(id, FrameOf(item, marshal)))
            && EventsOf(all[..k]) == (if item.Carried? then [item.event] else []) + EventsOf(items[..k - 1])
  {
    var all := [item] + items;
    FramesAreAsMany(items, marshal);
    FramesAreAsMany(all, marshal);
    assert all[1..] == items && all[..k][1..] == items[..k - 1];
    assert FramesOf(all, marshal)[..k][1..] == FramesOf(items, marshal)[..k - 1];
  }

  /** What one step of receiving does for the client. */
  lemma ReceivedNext(s: State, filter: Setting)
    requires Inv(s, filter) && EventSession.Enabled(s, Receive)
    ensures var event, t := NextEvent(s), Step(s, Receive, filter);
            event.id != "" && t.lastId == event.id && t.received == s.received + [event]
  {
    NextHasId(s, filter);
  }

  lemma ReadsEvent(s: State, s': State, t: State, event: Event, items: seq<Item>, k: nat, marshal: Event -> string)
    requires 0 < k <= |items| + 1 && event.id != ""
    requires s'.lastId == event.id && s'.received == s.received + [event] && Reads(s', t, items, k - 1, marshal)
    ensures Reads(s, t, [Carried(event)] + items, k, marshal)
  {
    FirstItem(Carried(event), items, k, s.lastId, marshal);
    assert s.received + ([event] + EventsOf(items[..k - 1])) == s.received + [event] + EventsOf(items[..k - 1]);
  }

  lemma ReadsService(s: State, t: State, kind: string, body: string, items: seq<Item>, k: nat, marshal: Event -> string)
    requires 0 < k <= |items| + 1 && Reads(s, t, items, k - 1, marshal)
    ensures Reads(s, t, [Service(kind, body)] + items, k, marshal)
  {
    FirstItem(Service(kind, body), items, k, s.lastId, marshal);
    assert [] + EventsOf(items[..k - 1]) == EventsOf(items[..k - 1]);
  }

  lemma PublishSeen(s: State, moves: seq<Move>, k: nat, w: Wire)
    requires moves != [] && moves[0].Publishes? && s.connection.Some? && Possible(s, moves, w)
    requires k <= |Written(s, moves, w)| && SeenOk(Moved(s, moves[0], w), moves[1..], k, w)
    ensures SeenOk(s, moves, k, w)
  {
    PublishAlike(s, s, moves[0].raw, w.filter);
    StepsFirst(s, Publish(moves[0].raw), Seen(moves[1..], k), w.filter);
  }

  lemma SendSeen(s: State, moves: seq<Move>, k: nat, w: Wire)
    requires moves != [] && moves[0].Sends? && Inv(s, w.filter) && Possible(s, moves, w) && 0 < k <= |Written(s, moves, w)|
    requires SeenOk(Moved(s, moves[0], w), moves[1..], k - 1, w)
    ensures SeenOk(s, moves, k, w)
  {
    var s' := Moved(s, moves[0], w);
    StepsFirst(s, Receive, Seen(moves[1..], k - 1), w.filter);
    ReceivedNext(s, w.filter);
    ReadsEvent(s, s', Stepped(s, Seen(moves, k), w.filter), NextEvent(s), Written(s', moves[1..], w), k, w.marshal);
  }

  lemma ServeSeen(s: State, moves: seq<Move>, k: nat, w: Wire)
    requires moves != [] && moves[0].Serves? && Possible(s, moves, w) && 0 < k <= |Written(s, moves, w)|
    requires SeenOk(s, moves[1..], k - 1, w)
    ensures SeenOk(s, moves, k, w)
  {
    ReadsService(s, Stepped(s, Seen(moves, k), w.filter), moves[0].kind, moves[0].body, Written(s, moves[1..], w), k, w.marshal);
  }

  lemma MovedKeeps(s: State, move: Move, w: Wire)
    requires Inv(s, w.filter) && s.connection.Some? && Movable(s, move, w)
    ensures Inv(Moved(s, move, w), w.filter) && Moved(s, move, w).connection.Some?
  {
    match move
    case Publishes(raw) =>
      PublishAlike(s, s, raw, w.filter);
      StepKeeps(s, Publish(raw), w.filter);
    case Sends =>
      TakenOff(s, NumberOf(NextEvent(s)));
      StepKeeps(s, Receive, w.filter);
    case Serves(_, _) =>
  }

  lemma {:induction false} SeenAgrees(s: State, moves: seq<Move>, k: nat, w: Wire)
    requires Inv(s, w.filter) && s.connection.Some? && Possible(s, moves, w) && k <= |Written(s, moves, w)|
    ensures SeenOk(s, moves, k, w)
    decreases |moves|
  {
    if k == 0 {
      NothingSeen(s, moves, w);
    } else {
      MovedKeeps(s, moves[0], w);
      SeenAgrees(Moved(s, moves[0], w), moves[1..], if moves[0].Publishes? then k else k - 1, w);
      match moves[0]
      case Publishes(_) => PublishSeen(s, moves, k, w);
      case Sends => SendSeen(s, moves, k, w);
      case Serves(_, _) => ServeSeen(s, moves, k, w);
    }
  }

  // One connection

  predicate AllWritable(items: seq<Item>, marshal: Event -> string) {
    forall f | f in FramesOf(items, marshal) :: Writable(f)
  }

  lemma {:induction false} WrittenIsWritable(s: State, moves: seq<Move>, w: Wire)
    requires Possible(s, moves, w)
    ensures AllWritable(Written(s, moves, w), w.marshal)
    decreases |moves|
  {
    if moves != [] {
      WrittenIsWritable(Moved(s, moves[0], w), moves[1..], w);
      var items := Written(s, moves, w);
      if !moves[0].Publishes? {
        assert FramesOf(items, w.marshal) == [FrameOf(items[0], w.marshal)] + FramesOf(items[1..], w.marshal);
      }
    }
  }

  /** The bytes of a connection. */
  function Bytes(s: State, moves: seq<Move>, w: Wire): string
    requires Possible(s, moves, w)
  {
    ConnectionText(FramesOf(Written(s, moves, w), w.marshal))
  }

  /** How many of its frames are whole within the first n bytes. */
  function Whole(s: State, moves: seq<Move>, n: nat, w: Wire): (k: nat)
    requires Possible(s, moves, w)
    ensures k <= |Written(s, moves, w)|
  {
    FramesAreAsMany(Written(s, moves, w), w.marshal);
    Arrived(FramesOf(Written(s, moves, w), w.marshal), n)
  }

  /** Where the client's reading began, which nothing on the wire depends on. */
  function BaseOf(s: State, acts: seq<Action>, filter: Setting): Base {
    if Steps(s, acts, filter) then Stepped(s, acts, filter).base else s.base
  }

  /** What is left of a connection cut after n bytes: the hub as the server left it, the ID the client's reader ends
      with, and the events whose frames it dispatched. */
  function Cut(s: State, moves: seq<Move>, n: nat, w: Wire): State
    requires Possible(s, moves, w) && n <= |Bytes(s, moves, w)|
  {
    var k := Whole(s, moves, n, w);
    Served(s, moves, w).(connection := None,
                         lastId := ReadAll(Resuming(s.lastId), Bytes(s, moves, w)[..n]).lastEventId,
                         received := s.received + EventsOf(Written(s, moves, w)[..k]),
                         base := BaseOf(s, Seen(moves, k), w.filter))
  }

  /** Cutting a connection anywhere is a session that received exactly the whole frames, which
      are the ones the client's reader dispatched, and then disconnected. */
  lemma CutIsDisconnect(s: State, moves: seq<Move>, n: nat, w: Wire)
    requires Inv(s, w.filter) && s.connection.Some? && Possible(s, moves, w) && n <= |Bytes(s, moves, w)|
    ensures var acts := Seen(moves, Whole(s, moves, n, w));
            && Steps(s, acts, w.filter) && EventSession.Enabled(Stepped(s, acts, w.filter), Disconnect)
            && Cut(s, moves, n, w) == Step(Stepped(s, acts, w.filter), Disconnect, w.filter)
    ensures Inv(Cut(s, moves, n, w), w.filter)
    ensures ReadAll(Resuming(s.lastId), Bytes(s, moves, w)[..n]).messages
         == Meaning(FramesOf(Written(s, moves, w), w.marshal)[..Whole(s, moves, n, w)], s.lastId)
  {
    var k, frames := Whole(s, moves, n, w), FramesOf(Written(s, moves, w), w.marshal);
    SeenAgrees(s, moves, k, w);
    WrittenIsWritable(s, moves, w);
    ClientSeesWholeFrames(frames, s.lastId, n);
    var t := Stepped(s, Seen(moves, k), w.filter);
    StepsKeep(s, Seen(moves, k), w.filter);
    StepKeeps(t, Disconnect, w.filter);
  }

  // Any number of connections

  /** Between connections the hub goes on; a connection is a subscription with the client's ID, the server's moves, and
      the byte after which it is cut. */
  datatype Episode = Offline(act: Action) | Online(moves: seq<Move>, cut: nat)

  predicate Playable(s: State, e: Episode, w: Wire) {
    s.connection.None? &&
    match e
    case Offline(act) => (act.Publish? || act.Restart?) && EventSession.Enabled(s, act)
    case Online(moves, n) =>
      var t := Step(s, Subscribe, w.filter);
      Possible(t, moves, w) && n <= |Bytes(t, moves, w)|
  }

  function Played(s: State, e: Episode, w: Wire): State
    requires Playable(s, e, w)
  {
    match e
    case Offline(act) => Step(s, act, w.filter)
    case Online(moves, n) => Cut(Step(s, Subscribe, w.filter), moves, n, w)
  }

  ghost predicate WireRun(states: seq<State>, episodes: seq<Episode>, w: Wire) {
    && |states| == |episodes| + 1 && states[0].epoch != "" && states[0] == Init(states[0].epoch) && w.filter.buffer >= 1
    && forall i | 0 <= i < |episodes| :: Follows(states[i], episodes[i], states[i + 1], w)
  }

  ghost predicate Follows(s: State, e: Episode, t: State, w: Wire) {
    Playable(s, e, w) && t == Played(s, e, w)
  }

  lemma PlayedKeeps(s: State, e: Episode, w: Wire)
    requires Inv(s, w.filter) && Playable(s, e, w)
    ensures Inv(Played(s, e, w), w.filter)
  {
    match e
    case Offline(act) => StepKeeps(s, act, w.filter);
    case Online(moves, n) =>
      StepKeeps(s, Subscribe, w.filter);
      CutIsDisconnect(Step(s, Subscribe, w.filter), moves, n, w);
  }

  lemma {:induction false} WireRunKeeps(states: seq<State>, episodes: seq<Episode>, w: Wire, i: nat)
    requires WireRun(states, episodes, w) && i < |states|
    ensures Inv(states[i], w.filter)
  {
    if i > 0 {
      var j := i - 1;
      WireRunKeeps(states, episodes, w, j);
      assert Follows(states[j], episodes[j], states[j + 1], w);
      PlayedKeeps(states[j], episodes[j], w);
    }
  }

  /** Over any number of connections, each cut after any byte with any number of frames on their way, the client has
      received since its latest gap marker exactly what matched up to its ID, each event once and in order. */
  lemma NothingLostOnTheWire(states: seq<State>, episodes: seq<Episode>, w: Wire, i: nat)
    requires WireRun(states, episodes, w) && i < |states|
    ensures Exact(states[i], w.filter)
    ensures states[i].lastId != "" ==> states[i].lastId == Cursor(states[i].base.epoch, states[i].base.last)
  {
    WireRunKeeps(states, episodes, w, i);
    InvExact(states[i], w.filter);
  }
}
