/** The daily order-entry windows of a test counter, in any time zone: the windows are counted from local midnight. */
module OrderSchedule {
  import opened Clock
  import opened Text
  import opened Wrappers

  datatype Window = Window(start: string, end: string)

  /** When each local calendar day of a zone begins, in nanoseconds. */
  type Days = int -> int

  /** The days are absent when the zone does not load. */
  datatype Schedule = Schedule(counterMode: string, days: Option<Days>, windows: seq<Window>)

  const MINUTE: int := 60_000_000_000
  const DAY: int := 86_400_000_000_000

  // Validation

  datatype Span = Span(start: nat, end: nat)

  function SpanOf(w: Window): Option<Span> {
    match (ParseMinute(TrimSpace(w.start)), ParseMinute(TrimSpace(w.end)))
    case (Some(start), Some(end)) => Some(Span(start, end))
    case _ => None
  }

  predicate Readable<W>(windows: seq<W>, spanOf: W -> Option<Span>) {
    forall i | 0 <= i < |windows| :: spanOf(windows[i]).Some?
  }

  function SpansBy<W>(windows: seq<W>, spanOf: W -> Option<Span>): seq<Span>
    requires Readable(windows, spanOf)
  {
    seq(|windows|, i requires 0 <= i < |windows| => spanOf(windows[i]).value)
  }

  /** No window is empty, and each ends before any later one starts. */
  predicate Disjoint(spans: seq<Span>) {
    && (forall i | 0 <= i < |spans| :: spans[i].start < spans[i].end < 1440)
    && (forall i, j | 0 <= i < j < |spans| :: spans[i].end <= spans[j].start)
  }

  predicate Valid(s: Schedule) {
    && TrimSpace(s.counterMode) != "" && s.days.Some?
    && s.windows != [] && Readable(s.windows, SpanOf) && Disjoint(SpansBy(s.windows, SpanOf))
  }

  function Spans(s: Schedule): seq<Span>
    requires Valid(s)
  {
    SpansBy(s.windows, SpanOf)
  }

  method Validate(s: Schedule) returns (ok: bool)
    ensures ok <==> Valid(s)
  {
    if TrimSpace(s.counterMode) == "" || s.days.None? || s.windows == [] {
      return false;
    }
    ok := ValidateWindows(s.windows, SpanOf);
  }

  /** Neighbours are enough: comparing each start with the end before it keeps all windows apart. */
  method ValidateWindows<W>(windows: seq<W>, spanOf: W -> Option<Span>) returns (ok: bool)
    requires forall w :: spanOf(w).Some? ==> spanOf(w).value.end < 1440
    ensures ok <==> Readable(windows, spanOf) && Disjoint(SpansBy(windows, spanOf))
  {
    var previousEnd: int := -1;
    ghost var spans: seq<Span> := [];
    for k := 0 to |windows|
      invariant Readable(windows[..k], spanOf) && spans == SpansBy(windows[..k], spanOf) && Disjoint(spans)
      invariant previousEnd == if k == 0 then -1 else spans[k - 1].end
    {
      var span := spanOf(windows[k]);
      if span.None? || span.value.start >= span.value.end || span.value.start < previousEnd {
        if Readable(windows, spanOf) {
          assert SpansBy(windows, spanOf)[k] == span.value;
          assert k > 0 ==> SpansBy(windows, spanOf)[k - 1] == spans[k - 1];
        }
        return false;
      }
      spans := spans + [span.value];
      previousEnd := span.value.end;
    }
    assert windows[..|windows|] == windows;
    ok := true;
  }

  // Days

  predicate InDay(days: Days, d: int, t: int) {
    days(d) <= t < days(d + 1)
  }

  predicate Passes(days: Days, d: int) {
    days(d) < days(d + 1)
  }

  ghost predicate Orderly(days: Days) {
    forall d :: Passes(days, d)
  }

  lemma {:induction false} DaysAscend(days: Days, d: int, e: int)
    requires Orderly(days) && d < e
    ensures days(d + 1) <= days(e)
    decreases e - d
  {
    if d + 1 < e {
      assert Passes(days, d + 1);
      DaysAscend(days, d + 1, e);
    }
  }

  lemma OneDay(days: Days, d: int, e: int, t: int)
    requires Orderly(days) && InDay(days, d, t) && InDay(days, e, t)
    ensures d == e
  {
    if d < e {
      DaysAscend(days, d, e);
    } else if e < d {
      DaysAscend(days, e, d);
    }
  }

  /** The day does not end before its last window does. */
  predicate FitsDay(spans: seq<Span>, days: Days, d: int) {
    forall i | 0 <= i < |spans| :: days(d) + spans[i].end * MINUTE <= days(d + 1)
  }

  ghost predicate Fit(spans: seq<Span>, days: Days) {
    Orderly(days) && forall d :: FitsDay(spans, days, d)
  }

  // Activity

  predicate Inside(span: Span, clock: int) {
    span.start * MINUTE <= clock < span.end * MINUTE
  }

  predicate Open(spans: seq<Span>, clock: int) {
    exists i :: 0 <= i < |spans| && Inside(spans[i], clock)
  }

  ghost predicate Active(spans: seq<Span>, days: Days, t: int) {
    exists d :: InDay(days, d, t) && Open(spans, t - days(d))
  }

  lemma ActiveInDay(spans: seq<Span>, days: Days, d: int, t: int)
    requires Orderly(days) && InDay(days, d, t)
    ensures Active(spans, days, t) <==> Open(spans, t - days(d))
  {
    if e :| InDay(days, e, t) && Open(spans, t - days(e)) {
      OneDay(days, d, e, t);
    }
  }

  /** Does some window end exactly when another starts? */
  predicate Handover(spans: seq<Span>, clock: int) {
    exists i, j :: 0 <= i < j < |spans| && spans[i].end * MINUTE == clock && spans[j].start * MINUTE == clock
  }

  /** A right answer: the state now, and the moment it changes; only where one window hands over to another does the state
      stay what it was. */
  ghost predicate Answers(spans: seq<Span>, days: Days, d: int, now: int, active: bool, next: int) {
    && (active <==> Active(spans, days, now))
    && next > now
    && (forall t | now <= t < next :: Active(spans, days, t) <==> active)
    && (!active ==> Active(spans, days, next))
    && (active && next < days(d + 1) ==> (Active(spans, days, next) <==> Handover(spans, next - days(d))))
  }

  /** A window open at the moment another closes is a later one that starts at that moment. */
  lemma OpenAtClose(spans: seq<Span>, i: nat, j: nat)
    requires Disjoint(spans) && i < |spans| && j < |spans| && Inside(spans[j], spans[i].end * MINUTE)
    ensures i < j && spans[j].start == spans[i].end
  {
    assert i <= j;
  }

  lemma OpenAfterClose(spans: seq<Span>, i: nat)
    requires Disjoint(spans) && i < |spans|
    ensures Open(spans, spans[i].end * MINUTE) <==> Handover(spans, spans[i].end * MINUTE)
  {
    var close := spans[i].end * MINUTE;
    if j :| 0 <= j < |spans| && Inside(spans[j], close) {
      OpenAtClose(spans, i, j);
      assert spans[i].end * MINUTE == close && spans[j].start * MINUTE == close;
    }
    if Handover(spans, close) {
      var k, j :| 0 <= k < j < |spans| && spans[k].end * MINUTE == close && spans[j].start * MINUTE == close;
      assert Inside(spans[j], close);
    }
  }

  /** Inside a window the answer is its end. */
  lemma AnswerWhileOpen(spans: seq<Span>, days: Days, d: int, now: int, i: nat)
    requires Disjoint(spans) && Fit(spans, days) && InDay(days, d, now)
    requires i < |spans| && Inside(spans[i], now - days(d))
    ensures Answers(spans, days, d, now, true, days(d) + spans[i].end * MINUTE)
  {
    var next := days(d) + spans[i].end * MINUTE;
    assert FitsDay(spans, days, d);
    forall t | now <= t < next ensures Active(spans, days, t) {
      ActiveInDay(spans, days, d, t);
      assert Inside(spans[i], t - days(d));
    }
    ActiveInDay(spans, days, d, now);
    if next < days(d + 1) {
      ActiveInDay(spans, days, d, next);
      OpenAfterClose(spans, i);
    }
  }

  /** From a closed moment to any later one of the day, nothing opens unless a window starts in between. */
  lemma StaysClosed(spans: seq<Span>, clock: int, later: int)
    requires !Open(spans, clock) && clock <= later
    requires forall i | 0 <= i < |spans| :: !(clock < spans[i].start * MINUTE <= later)
    ensures !Open(spans, later)
  {
    forall i | 0 <= i < |spans| ensures !Inside(spans[i], later) {
      assert !Inside(spans[i], clock);
    }
  }

  /** Before a later window of the day the answer is the earliest start. */
  lemma AnswerBeforeStart(spans: seq<Span>, days: Days, d: int, now: int, i: nat)
    requires Disjoint(spans) && Fit(spans, days) && InDay(days, d, now) && !Open(spans, now - days(d))
    requires i < |spans| && spans[i].start * MINUTE > now - days(d)
    requires forall j | 0 <= j < |spans| && spans[j].start * MINUTE > now - days(d) :: spans[i].start <= spans[j].start
    ensures Answers(spans, days, d, now, false, days(d) + spans[i].start * MINUTE)
  {
    var next := days(d) + spans[i].start * MINUTE;
    assert FitsDay(spans, days, d);
    assert next < days(d) + spans[i].end * MINUTE <= days(d + 1);
    forall t | now <= t < next ensures !Active(spans, days, t) {
      ActiveInDay(spans, days, d, t);
      StaysClosed(spans, now - days(d), t - days(d));
    }
    ActiveInDay(spans, days, d, next);
    assert Inside(spans[i], next - days(d));
  }

  predicate AllStarted(spans: seq<Span>, clock: int) {
    forall j | 0 <= j < |spans| :: spans[j].start * MINUTE <= clock
  }

  lemma BeforeFirst(spans: seq<Span>, clock: int)
    requires Disjoint(spans) && spans != [] && clock < spans[0].start * MINUTE
    ensures !Open(spans, clock)
  {
    forall i | 0 <= i < |spans| ensures !Inside(spans[i], clock) {
      assert i > 0 ==> spans[0].end <= spans[i].start;
    }
  }

  /** After the last start of a day the first window of the next day is what comes. */
  lemma ClosedUntilTomorrow(spans: seq<Span>, days: Days, d: int, now: int, t: int)
    requires Disjoint(spans) && Fit(spans, days) && spans != [] && InDay(days, d, now)
    requires !Open(spans, now - days(d)) && AllStarted(spans, now - days(d))
    requires now <= t < days(d + 1) + spans[0].start * MINUTE
    ensures !Active(spans, days, t)
  {
    if t < days(d + 1) {
      ActiveInDay(spans, days, d, t);
      StaysClosed(spans, now - days(d), t - days(d));
    } else {
      assert FitsDay(spans, days, d + 1);
      ActiveInDay(spans, days, d + 1, t);
      BeforeFirst(spans, t - days(d + 1));
    }
  }

  lemma OpensTomorrow(spans: seq<Span>, days: Days, d: int)
    requires Disjoint(spans) && Fit(spans, days) && spans != []
    ensures Active(spans, days, days(d + 1) + spans[0].start * MINUTE)
  {
    assert FitsDay(spans, days, d + 1);
    assert Inside(spans[0], spans[0].start * MINUTE);
    ActiveInDay(spans, days, d + 1, days(d + 1) + spans[0].start * MINUTE);
  }

  /** Then the answer, a day of twenty-four hours later, is right exactly when today is such a day. */
  lemma AnswerTomorrow(spans: seq<Span>, days: Days, d: int, now: int)
    requires Disjoint(spans) && Fit(spans, days) && spans != [] && InDay(days, d, now)
    requires !Open(spans, now - days(d)) && AllStarted(spans, now - days(d))
    ensures Answers(spans, days, d, now, false, days(d) + DAY + spans[0].start * MINUTE) <==> days(d + 1) == days(d) + DAY
  {
    var right, next := days(d + 1) + spans[0].start * MINUTE, days(d) + DAY + spans[0].start * MINUTE;
    OpensTomorrow(spans, days, d);
    forall t | now <= t < right ensures !Active(spans, days, t) {
      ClosedUntilTomorrow(spans, days, d, now, t);
    }
    assert now < days(d + 1) <= right;
    if now < next < right {
      assert !Active(spans, days, next);
    }
  }

  /** Open now, or a window still to come today, or a day of twenty-four hours. */
  predicate OnTime(spans: seq<Span>, days: Days, d: int, now: int) {
    Open(spans, now - days(d)) || !AllStarted(spans, now - days(d)) || days(d + 1) == days(d) + DAY
  }

  /** An error exactly for an invalid schedule; otherwise whether entry is open, and a moment that is the right one exactly
      when `OnTime` holds, as long as the windows fit into the days. */
  method ActiveAt(s: Schedule, d: int, now: int) returns (r: Option<(bool, int)>)
    requires s.days.Some? ==> Orderly(s.days.value) && InDay(s.days.value, d, now)
    ensures r.Some? <==> Valid(s)
    ensures r.Some? ==> (r.value.0 <==> Active(Spans(s), s.days.value, now))
    ensures r.Some? && Fit(Spans(s), s.days.value) ==>
              (Answers(Spans(s), s.days.value, d, now, r.value.0, r.value.1) <==> OnTime(Spans(s), s.days.value, d, now))
  {
    var ok := Validate(s);
    if !ok {
      return None;
    }
    var active, next := Scan(Spans(s), s.days.value, d, now);
    r := Some((active, next));
  }

  method Scan(spans: seq<Span>, days: Days, d: int, now: int) returns (active: bool, next: int)
    requires Disjoint(spans) && spans != [] && Orderly(days) && InDay(days, d, now)
    ensures active <==> Active(spans, days, now)
    ensures Fit(spans, days) ==> (Answers(spans, days, d, now, active, next) <==> OnTime(spans, days, d, now))
  {
    var found;
    ghost var at;
    active, found, at := SearchDay(spans, days(d), now);
    next := if found.Some? then found.value else days(d) + DAY + spans[0].start * MINUTE;
    ActiveInDay(spans, days, d, now);
    if Fit(spans, days) {
      FoundIsRight(spans, days, d, now, active, if found.Some? then Some(found.value - days(d)) else None, at);
    }
  }

  /** What a search of the day's windows has to come up with. */
  ghost predicate Found(spans: seq<Span>, clock: int, active: bool, next: Option<int>, at: nat) {
    if active then at < |spans| && Inside(spans[at], clock) && next == Some(spans[at].end * MINUTE)
    else
      && !Open(spans, clock)
      && match next
         case None => AllStarted(spans, clock)
         case Some(start) =>
           && at < |spans| && start == spans[at].start * MINUTE > clock
           && forall i | 0 <= i < |spans| && spans[i].start * MINUTE > clock :: spans[at].start <= spans[i].start
  }

  lemma FoundIsRight(spans: seq<Span>, days: Days, d: int, now: int, active: bool, found: Option<int>, at: nat)
    requires Disjoint(spans) && spans != [] && Fit(spans, days) && InDay(days, d, now)
    requires Found(spans, now - days(d), active, found, at)
    ensures var next := days(d) + (if found.Some? then found.value else DAY + spans[0].start * MINUTE);
            Answers(spans, days, d, now, active, next) <==> OnTime(spans, days, d, now)
  {
    if active {
      AnswerWhileOpen(spans, days, d, now, at);
    } else if found.None? {
      AnswerTomorrow(spans, days, d, now);
    } else {
      AnswerBeforeStart(spans, days, d, now, at);
    }
  }

  /** The end of the window that is open, or else the earliest start still to come today. */
  method SearchDay(spans: seq<Span>, dayStart: int, now: int) returns (active: bool, next: Option<int>, ghost at: nat)
    ensures Found(spans, now - dayStart, active, if next.Some? then Some(next.value - dayStart) else None, at)
  {
    active, next, at := false, None, 0;
    for k := 0 to |spans|
      invariant Found(spans[..k], now - dayStart, false, if next.Some? then Some(next.value - dayStart) else None, at)
    {
      assert spans[..k + 1] == spans[..k] + [spans[k]];
      var start, end := dayStart + spans[k].start * MINUTE, dayStart + spans[k].end * MINUTE;
      if start <= now < end {
        return true, Some(end), k;
      }
      if now < start && (next.None? || start < next.value) {
        next, at := Some(start), k;
      }
    }
    assert spans[..|spans|] == spans;
  }

  /** In a zone of one offset every answer is right. */
  lemma EvenDaysAreOnTime(spans: seq<Span>, days: Days, offset: int, d: int, now: int)
    requires Disjoint(spans) && forall e :: days(e) == e * DAY - offset
    ensures Fit(spans, days) && OnTime(spans, days, d, now)
  {
    forall e ensures Passes(days, e) && FitsDay(spans, days, e) {
      assert days(e + 1) == days(e) + DAY;
    }
    assert days(d + 1) == days(d) + DAY;
  }

  predicate LastsAnHour(days: Days, d: int) {
    days(d + 1) >= days(d) + 60 * MINUTE
  }

  /** On a longer day the answer may already have passed. */
  lemma LongDay(days: Days, d: int)
    requires days(d + 1) >= days(d) + DAY + 60 * MINUTE && forall e :: LastsAnHour(days, e)
    ensures var spans, now := [Span(10, 60)], days(d) + DAY + 30 * MINUTE;
            && Disjoint(spans) && Fit(spans, days) && InDay(days, d, now) && !Open(spans, now - days(d))
            && !OnTime(spans, days, d, now) && days(d) + DAY + spans[0].start * MINUTE < now
  {
    var spans := [Span(10, 60)];
    forall e ensures Passes(days, e) && FitsDay(spans, days, e) {
      assert LastsAnHour(days, e);
    }
    assert spans[0].start == 10;
  }
}
