/**
 The client loop of the SDK: it keeps the cursor of the last event outside the reader, comes back with it, and checks
 every event's cursor against it before handing the event on.
 */
module SdkStream {
  import opened EventSession
  import opened EventSpec
  import opened EventWire
  import opened SseStream
  import opened Text
  import opened Wrappers

  datatype Relation = Forward | Duplicate | OutOfOrder | EpochChanged

  function RelationOf(previous: string, current: string): Relation {
    var p, c := TrimSpace(previous), TrimSpace(current);
    if p == "" || c == "" then Forward
    else if p == c then Duplicate
    else Compared(ParseCursor(p), ParseCursor(c))
  }

  function Compared(p: Option<Position>, c: Option<Position>): Relation {
    if p.None? || c.None? then Forward
    else if p.value.epoch != c.value.epoch then EpochChanged
    else if c.value.sequence < p.value.sequence then OutOfOrder
    else Forward
  }

  predicate Skipped(relation: Relation) {
    relation == Duplicate || relation == OutOfOrder
  }

  function IdOf(item: Item): string {
    if item.Carried? then item.event.id else ""
  }

  /** How the cursor held so far and that of an event relate. */
  type Relate = (string, string) -> Relation

  function CursorNext(cursor: string, item: Item, relate: Relate): string {
    if Skipped(relate(cursor, IdOf(item))) || IdOf(item) == "" then cursor else IdOf(item)
  }

  function CursorAfter(cursor: string, items: seq<Item>, relate: Relate): string {
    if items == [] then cursor
    else CursorNext(CursorAfter(cursor, items[..|items| - 1], relate), items[|items| - 1], relate)
  }

  function HandedOn(cursor: string, item: Item, relate: Relate): seq<Item> {
    if Skipped(relate(cursor, IdOf(item))) then [] else [item]
  }

  /** What the loop hands on of the messages of one connection. */
  function Yielded(cursor: string, items: seq<Item>, relate: Relate): seq<Item> {
    if items == [] then []
    else
      var before, last := items[..|items| - 1], items[|items| - 1];
      Yielded(cursor, before, relate) + HandedOn(CursorAfter(cursor, before, relate), last, relate)
  }

  method ReadEvents(cursor: string, items: seq<Item>, relate: Relate) returns (yielded: seq<Item>, last: string)
    ensures yielded == Yielded(cursor, items, relate)
    ensures last == CursorAfter(cursor, items, relate)
  {
    yielded, last := [], cursor;
    for i := 0 to |items|
      invariant yielded == Yielded(cursor, items[..i], relate)
      invariant last == CursorAfter(cursor, items[..i], relate)
    {
      assert items[..i + 1][..i] == items[..i];
      var relation := relate(last, IdOf(items[i]));
      if relation == Duplicate || relation == OutOfOrder {
        continue;
      }
      yielded := yielded + [items[i]];
      if IdOf(items[i]) != "" {
        last := IdOf(items[i]);
      }
    }
    assert items[..|items|] == items;
  }

  /** The loop as it goes on after its first message. */
  lemma {:induction false} FirstHandedOn(cursor: string, item: Item, items: seq<Item>, relate: Relate)
    ensures var next := CursorNext(cursor, item, relate);
            && CursorAfter(cursor, [item] + items, relate) == CursorAfter(next, items, relate)
            && Yielded(cursor, [item] + items, relate) == HandedOn(cursor, item, relate) + Yielded(next, items, relate)
    decreases |items|
  {
    var all := [item] + items;
    if items == [] {
      assert all == [item] && all[..0] == [];
    } else {
      FirstHandedOn(cursor, item, items[..|items| - 1], relate);
      assert all[..|all| - 1] == [item] + items[..|items| - 1];
    }
  }

  // What the checks find

  lemma CursorsCompare(e: string, m: nat, f: string, n: nat)
    requires e != "" && f != "" && m < UINT64_LIMIT && n < UINT64_LIMIT
    ensures RelationOf(Cursor(e, m), Cursor(f, n))
         == if e != f then EpochChanged else if n == m then Duplicate else if n < m then OutOfOrder else Forward
  {
    CursorKeepsItself(e, m);
    CursorKeepsItself(f, n);
    ParseCursorInverts(e, m);
    ParseCursorInverts(f, n);
    if e == f && Cursor(e, m) == Cursor(e, n) {
      CursorInjective(e, m, n);
    }
  }

  /** What is next for a client is a marker, if it has anything of another epoch, and otherwise numbered above what it
      has. */
  lemma NextIsLater(s: State, filter: Setting) returns (number: nat)
    requires Inv(s, filter) && EventSession.Enabled(s, Receive) && s.lastId != ""
    ensures NextEvent(s).id == Cursor(s.epoch, number) && number < UINT64_LIMIT && s.epoch != ""
    ensures if s.base.epoch == s.epoch then number > s.base.last else NextEvent(s).kind == TYPE_GAP
  {
    var c, log := s.connection.value, Log(s);
    if c.pending != [] && !c.marked {
      var j := NextMatch(log, filter.accountId, s.base.last, c.start);
      number := j + 1;
      assert Numbered(log, s.epoch);
    } else if c.pending == [] && c.overflow.None? {
      var j := NextMatch(log, filter.accountId, QueueStart(s, c), |log|);
      number := j + 1;
      assert Numbered(log, s.epoch);
    } else {
      number := if c.pending != [] then c.start else c.overflow.value;
    }
  }

  /** No event that arrives is a duplicate or out of order, and a change of epoch comes with its gap marker. */
  lemma ChecksFindNothing(s: State, filter: Setting, relate: Relate)
    requires Inv(s, filter) && EventSession.Enabled(s, Receive) && relate == RelationOf
    ensures var relation := relate(s.lastId, NextEvent(s).id);
            !Skipped(relation) && (relation == EpochChanged ==> NextEvent(s).kind == TYPE_GAP)
  {
    if s.lastId != "" {
      var number := NextIsLater(s, filter);
      assert s.lastId == Cursor(s.base.epoch, s.base.last);
      CursorsCompare(s.base.epoch, s.base.last, s.epoch, number);
    } else {
      assert TrimSpace("") == "";
    }
  }

  lemma ServiceIsForward(cursor: string, relate: Relate)
    requires relate == RelationOf
    ensures relate(cursor, "") == Forward
  {
    assert TrimSpace("") == "";
  }

  /** The first k messages are all handed on, and the loop is left with the cursor the reader would hold. */
  ghost predicate HandsOnAll(cursor: string, items: seq<Item>, k: nat, marshal: Event -> string, relate: Relate)
    requires k <= |items|
  {
    && |FramesOf(items, marshal)| == |items|
    && Yielded(cursor, items[..k], relate) == items[..k]
    && CursorAfter(cursor, items[..k], relate) == LastId(FramesOf(items, marshal)[..k], cursor)
  }

  lemma HandsOnNext(cursor: string, item: Item, items: seq<Item>, k: nat, marshal: Event -> string, relate: Relate)
    requires 0 < k <= |items| + 1 && !Skipped(relate(cursor, IdOf(item)))
    requires HandsOnAll(NextId(cursor, FrameOf(item, marshal)), items, k - 1, marshal, relate)
    ensures HandsOnAll(cursor, [item] + items, k, marshal, relate)
  {
    assert ([item] + items)[..k] == [item] + items[..k - 1];
    FirstHandedOn(cursor, item, items[..k - 1], relate);
    FirstItem(item, items, k, cursor, marshal);
  }

  ghost predicate AllYielded(s: State, moves: seq<Move>, k: nat, w: Wire, relate: Relate)
    requires Possible(s, moves, w) && k <= |Written(s, moves, w)|
  {
    HandsOnAll(s.lastId, Written(s, moves, w), k, w.marshal, relate)
  }

  lemma SendYielded(s: State, moves: seq<Move>, k: nat, w: Wire, relate: Relate)
    requires moves != [] && moves[0].Sends? && Inv(s, w.filter) && Possible(s, moves, w) && 0 < k <= |Written(s, moves, w)|
    requires AllYielded(Moved(s, moves[0], w), moves[1..], k - 1, w, relate)
    requires !Skipped(relate(s.lastId, NextEvent(s).id))
    ensures AllYielded(s, moves, k, w, relate)
  {
    ReceivedNext(s, w.filter);
    HandsOnNext(s.lastId, Carried(NextEvent(s)), Written(Moved(s, moves[0], w), moves[1..], w), k, w.marshal, relate);
  }

  lemma ServeYielded(s: State, moves: seq<Move>, k: nat, w: Wire, relate: Relate)
    requires moves != [] && moves[0].Serves? && Possible(s, moves, w) && 0 < k <= |Written(s, moves, w)|
    requires AllYielded(s, moves[1..], k - 1, w, relate) && !Skipped(relate(s.lastId, ""))
    ensures AllYielded(s, moves, k, w, relate)
  {
    HandsOnNext(s.lastId, Service(moves[0].kind, moves[0].body), Written(s, moves[1..], w), k, w.marshal, relate);
  }

  lemma PublishYielded(s: State, moves: seq<Move>, k: nat, w: Wire, relate: Relate)
    requires moves != [] && moves[0].Publishes? && s.connection.Some? && Possible(s, moves, w)
    requires k <= |Written(s, moves, w)| && AllYielded(Moved(s, moves[0], w), moves[1..], k, w, relate)
    ensures AllYielded(s, moves, k, w, relate)
  {
    PublishAlike(s, s, moves[0].raw, w.filter);
  }

  lemma NothingYielded(s: State, moves: seq<Move>, w: Wire, relate: Relate)
    requires Possible(s, moves, w)
    ensures AllYielded(s, moves, 0, w, relate)
  {
    FramesAreAsMany(Written(s, moves, w), w.marshal);
  }

  /** Of a connection that delivers any number of whole frames, the loop hands on every message, and comes back with the
      ID a reader that carries it would hold. */
  lemma {:induction false} LoopDropsNothing(s: State, moves: seq<Move>, k: nat, w: Wire, relate: Relate)
    requires Inv(s, w.filter) && s.connection.Some? && Possible(s, moves, w) && k <= |Written(s, moves, w)|
    requires relate == RelationOf
    ensures AllYielded(s, moves, k, w, relate)
    decreases |moves|
  {
    if k == 0 {
      NothingYielded(s, moves, w, relate);
    } else {
      MovedKeeps(s, moves[0], w);
      LoopDropsNothing(Moved(s, moves[0], w), moves[1..], if moves[0].Publishes? then k else k - 1, w, relate);
      match moves[0]
      case Publishes(_) => PublishYielded(s, moves, k, w, relate);
      case Sends =>
        ChecksFindNothing(s, w.filter, relate);
        SendYielded(s, moves, k, w, relate);
      case Serves(_, _) =>
        ServiceIsForward(s.lastId, relate);
        ServeYielded(s, moves, k, w, relate);
    }
  }

  /** So it is on every connection of a client that came back any number of times. */
  lemma NothingSkippedOnTheWire(states: seq<State>, episodes: seq<Episode>, w: Wire, i: nat)
    requires WireRun(states, episodes, w) && i < |episodes| && episodes[i].Online?
    ensures Playable(states[i], episodes[i], w)
    ensures var t, e := Step(states[i], Subscribe, w.filter), episodes[i];
            var k := Whole(t, e.moves, e.cut, w);
            && Yielded(states[i].lastId, Written(t, e.moves, w)[..k], RelationOf) == Written(t, e.moves, w)[..k]
            && CursorAfter(states[i].lastId, Written(t, e.moves, w)[..k], RelationOf) == states[i + 1].lastId
  {
    assert Follows(states[i], episodes[i], states[i + 1], w);
    WireRunKeeps(states, episodes, w, i);
    StepKeeps(states[i], Subscribe, w.filter);
    ConnectionHandedOn(Step(states[i], Subscribe, w.filter), episodes[i].moves, episodes[i].cut, w);
  }

  lemma ConnectionHandedOn(t: State, moves: seq<Move>, n: nat, w: Wire)
    requires Inv(t, w.filter) && t.connection.Some? && Possible(t, moves, w) && n <= |Bytes(t, moves, w)|
    ensures var items := Written(t, moves, w)[..Whole(t, moves, n, w)];
            && Yielded(t.lastId, items, RelationOf) == items
            && CursorAfter(t.lastId, items, RelationOf) == Cut(t, moves, n, w).lastId
  {
    var k, frames := Whole(t, moves, n, w), FramesOf(Written(t, moves, w), w.marshal);
    LoopDropsNothing(t, moves, k, w, RelationOf);
    WrittenIsWritable(t, moves, w);
    ClientSeesWholeFrames(frames, t.lastId, n);
  }
}
