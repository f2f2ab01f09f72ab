/** Events, cursors, and what the hub means: an unbounded log filtered by account. */
module EventSpec {
  import opened Wrappers
  import opened Text

  const TYPE_GAP := "relay.gap"
  const DEFAULT_TYPE := "relay.event"
  const DEFAULT_BUFFER: nat := 32

  /** `body` stands for the time, source, stream and data fields, which the hub only carries. */
  datatype Event = Event(id: string, kind: string, accountIds: seq<string>, body: string)

  // Cursors

  function Cursor(epoch: string, sequence: nat): string {
    "evt-" + epoch + "-" + FormatNat(sequence)
  }

  /** `strings.LastIndex` of a character, one past it; 0 when absent. */
  function AfterLast(s: string, c: char): (i: nat)
    ensures i <= |s| && (i > 0 ==> s[i - 1] == c) && forall j | i <= j < |s| :: s[j] != c
  {
    if s == [] then 0 else if s[|s| - 1] == c then |s| else AfterLast(s[..|s| - 1], c)
  }

  datatype Position = Position(epoch: string, sequence: nat)

  function ParseCursor(raw: string): Option<Position> {
    var cursor := TrimSpace(raw);
    if !("evt-" <= cursor) then None
    else
      var after := AfterLast(cursor, '-');
      if after <= 5 || after == |cursor| then None
      else match ParseUint64(cursor[after..])
        case None => None
        case Some(n) => Some(Position(cursor[4..after - 1], n))
  }

  lemma CursorKeepsItself(epoch: string, sequence: nat)
    ensures TrimSpace(Cursor(epoch, sequence)) == Cursor(epoch, sequence)
  {
    var s := Cursor(epoch, sequence);
    var digits := FormatNat(sequence);
    assert s[0] == 'e' && s[|s| - 1] == digits[|digits| - 1] && IsDigit(digits[|digits| - 1]);
    TrimSpaceKeeps(s);
  }

  lemma {:induction false} LastDash(front: string, digits: string)
    requires AllDigits(digits)
    ensures AfterLast(front + "-" + digits, '-') == |front| + 1
    decreases |digits|
  {
    var s := front + "-" + digits;
    if digits == [] {
      assert s[|s| - 1] == '-';
    } else {
      var n := |digits| - 1;
      assert IsDigit(digits[n]) && s[|s| - 1] == digits[n];
      LastDash(front, digits[..n]);
      assert s[..|s| - 1] == front + "-" + digits[..n];
    }
  }

  lemma CursorParts(epoch: string, digits: string)
    ensures var s, n := "evt-" + epoch + "-" + digits, 4 + |epoch|;
            "evt-" <= s && |s| == n + 1 + |digits| && s[4..n] == epoch && s[n + 1..] == digits
  {
  }

  /** Parsing inverts printing for every non-empty epoch, one containing dashes included. */
  lemma ParseCursorInverts(epoch: string, sequence: nat)
    requires epoch != "" && sequence < UINT64_LIMIT
    ensures ParseCursor(Cursor(epoch, sequence)) == Some(Position(epoch, sequence))
  {
    var digits := FormatNat(sequence);
    CursorKeepsItself(epoch, sequence);
    LastDash("evt-" + epoch, digits);
    CursorParts(epoch, digits);
    ParseFormat(sequence);
    assert ParseUint64(digits) == Some(sequence);
  }

  /** Cursors of one epoch are equal only for equal numbers. */
  lemma CursorInjective(epoch: string, m: nat, n: nat)
    requires Cursor(epoch, m) == Cursor(epoch, n)
    ensures m == n
  {
    var prefix := "evt-" + epoch + "-";
    assert Cursor(epoch, m)[|prefix|..] == FormatNat(m) && Cursor(epoch, n)[|prefix|..] == FormatNat(n);
    FormatNatInjective(m, n);
  }

  // Matching

  predicate Matches(accountId: string, event: Event) {
    accountId == "" || event.accountIds == [] || accountId in event.accountIds
  }

  /** The events numbered above `from` up to `upTo` that match, in order. */
  function Matching(log: seq<Event>, accountId: string, from: nat, upTo: nat): seq<Event>
    requires upTo <= |log|
  {
    if upTo <= from then []
    else Matching(log, accountId, from, upTo - 1) + (if Matches(accountId, log[upTo - 1]) then [log[upTo - 1]] else [])
  }

  lemma {:induction false} MatchingSplit(log: seq<Event>, accountId: string, from: nat, mid: nat, upTo: nat)
    requires from <= mid <= upTo <= |log|
    ensures Matching(log, accountId, from, upTo) == Matching(log, accountId, from, mid) + Matching(log, accountId, mid, upTo)
  {
    if mid < upTo {
      MatchingSplit(log, accountId, from, mid, upTo - 1);
    }
  }

  /** A stretch of the log does not depend on what follows it. */
  lemma {:induction false} MatchingStays(log: seq<Event>, more: seq<Event>, accountId: string, from: nat, upTo: nat)
    requires upTo <= |log| && log <= more
    ensures Matching(more, accountId, from, upTo) == Matching(log, accountId, from, upTo)
  {
    if from < upTo {
      MatchingStays(log, more, accountId, from, upTo - 1);
    }
  }

  /** The first match of a stretch of the log. */
  lemma {:induction false} NextMatch(log: seq<Event>, accountId: string, from: nat, upTo: nat) returns (j: nat)
    requires upTo <= |log| && Matching(log, accountId, from, upTo) != []
    ensures from <= j < upTo && Matches(accountId, log[j]) && Matching(log, accountId, from, j) == []
    ensures Matching(log, accountId, from, upTo) == [log[j]] + Matching(log, accountId, j + 1, upTo)
  {
    if Matching(log, accountId, from, upTo - 1) == [] {
      j := upTo - 1;
    } else {
      j := NextMatch(log, accountId, from, upTo - 1);
    }
  }

  /** The account list of a published event: trimmed, blanks dropped, first occurrences kept. */
  function NormalizeAccountIds(ids: seq<string>): seq<string> {
    if ids == [] then []
    else
      var rest, id := NormalizeAccountIds(ids[..|ids| - 1]), TrimSpace(ids[|ids| - 1]);
      if id == "" || id in rest then rest else rest + [id]
  }

  /** Normalizing keeps exactly the non-blank accounts named, once each; a list of blanks becomes empty, which
      addresses every subscriber. */
  lemma {:induction false} NormalizedAccounts(ids: seq<string>)
    ensures forall id :: id in NormalizeAccountIds(ids) <==> id != "" && exists i :: 0 <= i < |ids| && TrimSpace(ids[i]) == id
    ensures forall i, j | 0 <= i < j < |NormalizeAccountIds(ids)| :: NormalizeAccountIds(ids)[i] != NormalizeAccountIds(ids)[j]
  {
    if ids != [] {
      var n := |ids| - 1;
      NormalizedAccounts(ids[..n]);
      forall id ensures id in NormalizeAccountIds(ids) <==> id != "" && exists i :: 0 <= i < |ids| && TrimSpace(ids[i]) == id {
        if id in NormalizeAccountIds(ids[..n]) {
          var i :| 0 <= i < n && TrimSpace(ids[..n][i]) == id;
          assert TrimSpace(ids[i]) == id;
        } else {
          assert forall i | 0 <= i < n :: TrimSpace(ids[i]) == TrimSpace(ids[..n][i]);
        }
      }
    }
  }

  // Delivery

  /** The event a publication becomes: numbered, with a type, its accounts normalized. */
  function Stamped(epoch: string, number: nat, raw: Event): Event {
    Event(Cursor(epoch, number), if raw.kind == "" then DEFAULT_TYPE else raw.kind, NormalizeAccountIds(raw.accountIds), raw.body)
  }

  function SlowConsumerGap(accountId: string, current: Event): Event {
    Event(current.id, TYPE_GAP, if accountId != "" then [accountId] else current.accountIds, "slow_consumer")
  }

  /** What publishing `event` does to one subscriber's queue. */
  function Offer(queue: seq<Event>, accountId: string, buffer: nat, event: Event): seq<Event> {
    if !Matches(accountId, event) then queue
    else if |queue| < buffer then queue + [event]
    else [SlowConsumerGap(accountId, event)]
  }

  // The log and its replayable end

  /** The event number n (counting from 1) carries cursor n. */
  ghost predicate Numbered(log: seq<Event>, epoch: string) {
    forall i | 0 <= i < |log| :: log[i].id == Cursor(epoch, i + 1)
  }

  /** The matches of a stretch carry numbers of that stretch, in strictly increasing order: none twice. */
  lemma {:induction false} MatchesAreDistinct(log: seq<Event>, epoch: string, accountId: string, from: nat, upTo: nat)
    requires upTo <= |log| && Numbered(log, epoch)
    ensures forall e | e in Matching(log, accountId, from, upTo) ::
              Matches(accountId, e) && exists i :: from <= i < upTo && e == log[i]
    ensures forall i, j | 0 <= i < j < |Matching(log, accountId, from, upTo)| ::
              Matching(log, accountId, from, upTo)[i].id != Matching(log, accountId, from, upTo)[j].id
  {
    if from < upTo {
      MatchesAreDistinct(log, epoch, accountId, from, upTo - 1);
      var rest, all := Matching(log, accountId, from, upTo - 1), Matching(log, accountId, from, upTo);
      forall i | 0 <= i < |rest| ensures rest[i].id != log[upTo - 1].id {
        assert rest[i] in rest;
        var k :| from <= k < upTo - 1 && rest[i] == log[k];
        if Cursor(epoch, k + 1) == Cursor(epoch, upTo) { CursorInjective(epoch, k + 1, upTo); }
      }
      forall e | e in all ensures exists k :: from <= k < upTo && e == log[k] {
        if e in rest { var k :| from <= k < upTo - 1 && e == log[k]; }
      }
    }
  }

  function Min(a: nat, b: nat): nat {
    if a < b then a else b
  }

  /** How many events of the log have been evicted from a history of this capacity. */
  function Evicted(log: seq<Event>, capacity: nat): nat {
    |log| - Min(capacity, |log|)
  }

  function History(log: seq<Event>, capacity: nat): seq<Event> {
    log[Evicted(log, capacity)..]
  }

  datatype Resumption =
    | Fresh
    | Gap(reason: string)
    | Resumed(events: seq<Event>)

  /** The answer to a resume request, defined on the unbounded log. */
  function Resume(epoch: string, log: seq<Event>, capacity: nat, accountId: string, requested: string): Resumption {
    if requested == "" then Fresh
    else match ParseCursor(requested)
      case None => Gap("invalid_cursor")
      case Some(p) =>
        if p.epoch != epoch then Gap("server_restart")
        else if p.sequence > |log| then Gap("cursor_ahead")
        else if p.sequence < Evicted(log, capacity) then Gap("cursor_expired")
        else Resumed(Matching(log, accountId, p.sequence, |log|))
  }

  /** The event at index n of the log is still in the history, at its place. */
  predicate Retained(log: seq<Event>, capacity: nat, n: nat)
    requires n < |log|
  {
    var base := Evicted(log, capacity);
    n >= base && History(log, capacity)[n - base] == log[n]
  }

  /** A same-epoch cursor is resumed exactly when nothing numbered above it was evicted. */
  lemma ResumedIff(epoch: string, log: seq<Event>, capacity: nat, accountId: string, sequence: nat)
    requires epoch != "" && sequence <= |log| < UINT64_LIMIT
    ensures var r := Resume(epoch, log, capacity, accountId, Cursor(epoch, sequence));
            && (r.Resumed? <==> forall n | sequence <= n < |log| :: Retained(log, capacity, n))
            && (r.Resumed? ==> r.events == Matching(log, accountId, sequence, |log|))
            && (!r.Resumed? ==> r == Gap("cursor_expired"))
  {
    ParseCursorInverts(epoch, sequence);
    if sequence < Evicted(log, capacity) {
      assert !Retained(log, capacity, sequence);
    }
  }
}
