/**
 The two statements that change a stored order: the upsert of a full order message and the status update of an
 order event. Each is one atomic merge of the stored row and the message; the time `now()` and the answer of
 the embedded query over past events are parameters.
 */
module OrderMerge {
  import opened Wrappers

  type Time = nat

  datatype OrderKey = OrderKey(account: string, tradeDate: string, gatewayOrderId: string)

  datatype Quantities = Quantities(submitted: nat, cumFilled: nat, leaves: nat, cancelled: nat, invalid: nat)

  datatype Identity = Identity(originMessageId: Option<string>, requestId: Option<string>, idempotencyKey: Option<string>)

  datatype Reject = Reject(code: Option<string>, message: Option<string>)

  datatype Row = Row(qty: Quantities, status: string, gatewayStatus: string, isTerminal: bool, terminalAt: Option<Time>,
                     lastUpdatedAt: Option<Time>, identity: Identity, reject: Reject, fee: real, context: map<string, string>)

  /** What a message supplies for the same columns. */
  type Message = Row

  const REPLY_KEY := "relay_reply_status"
  const FEE_RECORD_KEY := "fee_record_id"
  const FEE_SOURCE_KEY := "reported_fee_source"
  const UNAVAILABLE := "unavailable"
  const REJECTED := "rejected"

  function Coalesce<T>(a: Option<T>, b: Option<T>): Option<T> {
    if a.Some? then a else b
  }

  function Greatest(a: nat, b: nat): nat {
    if a < b then b else a
  }

  /** The message is a reply of the trading counter's own records. */
  predicate Authoritative(m: Message) {
    REPLY_KEY in m.context
  }

  /** A late message may not reopen or restate an order that is over. */
  predicate Late(row: Row, m: Message) {
    row.isTerminal && !m.isTerminal
  }

  function MergeReject(row: Row, m: Message): Reject {
    if Late(row, m) && row.status == REJECTED then row.reject
    else if m.status == REJECTED || m.gatewayStatus == REJECTED then m.reject
    else Reject(None, None)
  }

  function MergeIdentity(row: Identity, m: Identity): Identity {
    Identity(Coalesce(row.originMessageId, m.originMessageId), Coalesce(row.requestId, m.requestId),
             Coalesce(row.idempotencyKey, m.idempotencyKey))
  }

  function ReportedFeeSource(m: Message): string {
    if FEE_SOURCE_KEY in m.context then m.context[FEE_SOURCE_KEY] else UNAVAILABLE
  }

  /** `ON CONFLICT DO UPDATE` of the order upsert; `pastTerminal` is the earliest matching terminal event. */
  function Upsert(row: Row, m: Message, pastTerminal: Option<Time>, now: Time): Row {
    var reply := Authoritative(m);
    Row(
      Quantities(
        if reply then m.qty.submitted else Greatest(row.qty.submitted, m.qty.submitted),
        if reply || m.isTerminal then m.qty.cumFilled else Greatest(row.qty.cumFilled, m.qty.cumFilled),
        if reply then m.qty.leaves else if Late(row, m) then row.qty.leaves else m.qty.leaves,
        if reply then m.qty.cancelled else Greatest(row.qty.cancelled, m.qty.cancelled),
        if reply then m.qty.invalid else Greatest(row.qty.invalid, m.qty.invalid)),
      if reply then m.status else if Late(row, m) then row.status else m.status,
      if reply then m.gatewayStatus else if Late(row, m) then row.gatewayStatus else m.gatewayStatus,
      if reply then m.isTerminal else row.isTerminal || m.isTerminal,
      if reply && !m.isTerminal then None
      else if reply then
        Coalesce(m.terminalAt, Coalesce(pastTerminal, Coalesce(row.terminalAt, Coalesce(m.lastUpdatedAt, Some(now)))))
      else if Late(row, m) then row.terminalAt
      else if m.isTerminal then Coalesce(m.terminalAt, Coalesce(row.terminalAt, Coalesce(m.lastUpdatedAt, Some(now))))
      else row.terminalAt,
      Coalesce(m.lastUpdatedAt, row.lastUpdatedAt),
      MergeIdentity(row.identity, m.identity),
      MergeReject(row, m),
      if FEE_RECORD_KEY in row.context && ReportedFeeSource(m) == UNAVAILABLE then row.fee else m.fee,
      if reply then m.context else row.context + m.context)
  }

  /** The UPDATE of the order event; the message's `lastUpdatedAt` is the event's production time. */
  function UpdateStatus(row: Row, m: Message, now: Time): Row {
    Row(
      Quantities(
        Greatest(row.qty.submitted, m.qty.submitted),
        if m.isTerminal then m.qty.cumFilled else Greatest(row.qty.cumFilled, m.qty.cumFilled),
        if Late(row, m) then row.qty.leaves
        else if m.qty.leaves > 0 || m.isTerminal then m.qty.leaves else row.qty.leaves,
        Greatest(row.qty.cancelled, m.qty.cancelled),
        Greatest(row.qty.invalid, m.qty.invalid)),
      if Late(row, m) then row.status else m.status,
      if Late(row, m) then row.gatewayStatus else m.gatewayStatus,
      row.isTerminal || m.isTerminal,
      if Late(row, m) then row.terminalAt
      else if m.isTerminal then Coalesce(m.terminalAt, Coalesce(m.lastUpdatedAt, Coalesce(row.terminalAt, Some(now))))
      else row.terminalAt,
      Coalesce(m.lastUpdatedAt, Some(now)),
      row.identity,
      MergeReject(row, m),
      if row.fee < m.fee then m.fee else row.fee,
      row.context + m.context)
  }

  // Runs over one order

  datatype Statement =
    | ByUpsert(m: Message, pastTerminal: Option<Time>, now: Time)
    | ByEvent(m: Message, now: Time)

  /** One statement on one order, stored or not. */
  function Execute(row: Option<Row>, st: Statement): Option<Row> {
    match (row, st)
    case (Some(r), ByUpsert(m, past, now)) => Some(Upsert(r, m, past, now))
    case (None, ByUpsert(m, _, _)) => Some(m)
    case (Some(r), ByEvent(m, now)) => Some(UpdateStatus(r, m, now))
    case (None, ByEvent(_, _)) => None
  }

  function ExecuteAll(row: Option<Row>, sts: seq<Statement>): Option<Row> {
    if sts == [] then row else Execute(ExecuteAll(row, sts[..|sts| - 1]), sts[|sts| - 1])
  }

  predicate HasUpsert(sts: seq<Statement>) {
    exists st | st in sts :: st.ByUpsert?
  }

  /** A row is there exactly when some message of the order has been upserted. */
  lemma {:induction false} StoredByUpsert(sts: seq<Statement>)
    ensures ExecuteAll(None, sts).Some? <==> HasUpsert(sts)
    decreases |sts|
  {
    if sts != [] {
      var n := |sts| - 1;
      StoredByUpsert(sts[..n]);
      assert sts == sts[..n] + [sts[n]];
      NoneStaysNone(ExecuteAll(None, sts[..n]), sts[n]);
    }
  }

  lemma NoneStaysNone(row: Option<Row>, st: Statement)
    ensures Execute(row, st).None? <==> row.None? && !st.ByUpsert?
  {
  }

  // Lifecycle

  /** A statement that may not overrule what is stored: any event, and any upsert that is no counter reply. */
  predicate Ordinary(st: Statement) {
    st.ByUpsert? ==> !Authoritative(st.m)
  }

  /** An order that is over stays over under ordinary statements, and non-terminal ones change nothing of it. */
  lemma {:induction false} OverStaysOver(row: Row, sts: seq<Statement>)
    requires row.isTerminal && forall st | st in sts :: Ordinary(st)
    ensures var r := ExecuteAll(Some(row), sts);
            && r.Some? && r.value.isTerminal
            && ((forall st | st in sts :: !st.m.isTerminal) ==>
                  r.value.status == row.status && r.value.gatewayStatus == row.gatewayStatus
                  && r.value.qty.leaves == row.qty.leaves && r.value.terminalAt == row.terminalAt)
  {
    if sts != [] {
      OverStaysOver(row, sts[..|sts| - 1]);
      assert Ordinary(sts[|sts| - 1]);
    }
  }

  predicate TerminalTimed(row: Row) {
    row.isTerminal <==> row.terminalAt.Some?
  }

  predicate TerminalNamed(row: Row) {
    row.isTerminal ==> row.status in {"filled", "cancelled", "rejected"}
  }

  /** "Terminal exactly when a terminal time is set" is kept by every merge, authoritative ones included, and
      holds of a stored order whenever it held of the message that first stored it; the insert alone can break
      it, exactly by storing a message that breaks it. */
  lemma {:induction false} TerminalTimesKept(row: Option<Row>, sts: seq<Statement>)
    requires row.Some? ==> TerminalTimed(row.value)
    requires row.None? ==> forall st | st in sts && st.ByUpsert? :: TerminalTimed(st.m)
    ensures var r := ExecuteAll(row, sts); (row.Some? ==> r.Some?) && (r.Some? ==> TerminalTimed(r.value))
  {
    if sts != [] {
      TerminalTimesKept(row, sts[..|sts| - 1]);
      assert sts[|sts| - 1] in sts;
    }
  }

  lemma InsertIsTheOnlyBreach(row: Option<Row>, st: Statement)
    requires row.Some? ==> TerminalTimed(row.value)
    ensures var r := Execute(row, st);
            r.Some? && !TerminalTimed(r.value) <==> row.None? && st.ByUpsert? && !TerminalTimed(st.m)
  {
  }

  /** The table's check constraint: a terminal order has a terminal status name. */
  lemma {:induction false} TerminalNamesKept(row: Option<Row>, sts: seq<Statement>)
    requires row.Some? ==> TerminalNamed(row.value)
    requires forall st | st in sts :: TerminalNamed(st.m)
    ensures var r := ExecuteAll(row, sts); r.Some? ==> TerminalNamed(r.value)
  {
    if sts != [] {
      TerminalNamesKept(row, sts[..|sts| - 1]);
      assert TerminalNamed(sts[|sts| - 1].m);
    }
  }

  predicate Keeps<T(==)>(before: Option<T>, after: Option<T>) {
    before.Some? ==> after == before
  }

  /** Once an order knows the message, request and idempotency key it came from, no statement changes them. */
  lemma {:induction false} FirstIdentityStays(row: Row, sts: seq<Statement>)
    ensures var r := ExecuteAll(Some(row), sts);
            && r.Some?
            && Keeps(row.identity.originMessageId, r.value.identity.originMessageId)
            && Keeps(row.identity.requestId, r.value.identity.requestId)
            && Keeps(row.identity.idempotencyKey, r.value.identity.idempotencyKey)
  {
    if sts != [] {
      FirstIdentityStays(row, sts[..|sts| - 1]);
    }
  }

  // Arrival order

  /** The columns on which arrival order must not matter. */
  datatype Outcome = Outcome(status: string, gatewayStatus: string, isTerminal: bool, qty: Quantities)

  function OutcomeOf(r: Row): Outcome {
    Outcome(r.status, r.gatewayStatus, r.isTerminal, r.qty)
  }

  /** The largest of a base value and one quantity of a list of messages. */
  function Largest(base: nat, q: Message -> nat, ms: seq<Message>): nat {
    if ms == [] then base else Greatest(Largest(base, q, ms[..|ms| - 1]), q(ms[|ms| - 1]))
  }

  function Messages(sts: seq<Statement>): seq<Message> {
    seq(|sts|, i requires 0 <= i < |sts| => sts[i].m)
  }

  function Submitted(m: Message): nat {
    m.qty.submitted
  }

  function Cancelled(m: Message): nat {
    m.qty.cancelled
  }

  function Invalid(m: Message): nat {
    m.qty.invalid
  }

  function Filled(m: Message): nat {
    m.qty.cumFilled
  }

  /** Two terminal messages that report the same end, whatever else they carry. */
  predicate SameEnd(m: Message, last: Message) {
    && m.status == last.status && m.gatewayStatus == last.gatewayStatus
    && m.qty.cumFilled == last.qty.cumFilled && m.qty.leaves == last.qty.leaves
  }

  /** Terminal statements are there, however many, all reporting the same end, and none reports more filled. */
  predicate EndsAs(sts: seq<Statement>, last: Message) {
    && (exists st | st in sts :: st.m.isTerminal)
    && forall st | st in sts :: Ordinary(st) && FitsEnd(st.m, last)
  }

  predicate FitsEnd(m: Message, last: Message) {
    m.qty.cumFilled <= last.qty.cumFilled && (m.isTerminal ==> SameEnd(m, last))
  }

  /** The same messages, each any number of times. */
  predicate SameMessages(sts: seq<Statement>, sts': seq<Statement>) {
    Distinct(Messages(sts)) == Distinct(Messages(sts'))
  }

  function Distinct(ms: seq<Message>): set<Message> {
    set m | m in ms
  }

  /** The result of such a list, which does not depend on its order. */
  function Settled(base: Quantities, ms: seq<Message>, last: Message): Outcome {
    Outcome(last.status, last.gatewayStatus, true,
            Quantities(Largest(base.submitted, Submitted, ms), last.qty.cumFilled, last.qty.leaves,
                       Largest(base.cancelled, Cancelled, ms), Largest(base.invalid, Invalid, ms)))
  }

  /** What the prefix before the first terminal message leaves open. */
  ghost predicate Building(row: Row, base: Quantities, ms: seq<Message>) {
    && !row.isTerminal
    && row.qty.submitted == Largest(base.submitted, Submitted, ms)
    && row.qty.cancelled == Largest(base.cancelled, Cancelled, ms)
    && row.qty.invalid == Largest(base.invalid, Invalid, ms)
  }

  /** Open before the first terminal message, settled from then on. */
  ghost predicate Progress(row: Option<Row>, base: Quantities, ms: seq<Message>, open: bool, last: Message) {
    row.Some? && if open then Building(row.value, base, ms) else OutcomeOf(row.value) == Settled(base, ms, last)
  }

  predicate NoneTerminal(sts: seq<Statement>) {
    forall st | st in sts :: !st.m.isTerminal
  }

  lemma {:induction false} RunSettles(row: Row, sts: seq<Statement>, last: Message, upTo: nat)
    requires !row.isTerminal && EndsAs(sts, last) && upTo <= |sts|
    ensures Progress(ExecuteAll(Some(row), sts[..upTo]), row.qty, Messages(sts[..upTo]), NoneTerminal(sts[..upTo]), last)
  {
    if upTo > 0 {
      var k := upTo - 1;
      RunSettles(row, sts, last, k);
      PrefixNext(Some(row), sts, k);
      assert sts[k] in sts;
      ProgressNext(ExecuteAll(Some(row), sts[..k]), sts[k], row.qty, Messages(sts[..k]), NoneTerminal(sts[..k]), last);
    }
  }

  lemma PrefixNext(row: Option<Row>, sts: seq<Statement>, k: nat)
    requires k < |sts|
    ensures ExecuteAll(row, sts[..k + 1]) == Execute(ExecuteAll(row, sts[..k]), sts[k])
    ensures Messages(sts[..k + 1]) == Messages(sts[..k]) + [sts[k].m]
    ensures NoneTerminal(sts[..k + 1]) <==> NoneTerminal(sts[..k]) && !sts[k].m.isTerminal
  {
    assert sts[..k + 1][..k] == sts[..k] && sts[..k + 1] == sts[..k] + [sts[k]];
  }

  lemma ProgressNext(row: Option<Row>, st: Statement, base: Quantities, ms: seq<Message>, open: bool, last: Message)
    requires Progress(row, base, ms, open, last) && Ordinary(st) && FitsEnd(st.m, last)
    ensures Progress(Execute(row, st), base, ms + [st.m], open && !st.m.isTerminal, last)
  {
    if st.m.isTerminal {
      SettlingNext(row.value, st, base, ms, last);
    } else if open {
      BuildingNext(row.value, st, base, ms);
    } else {
      SettledNext(row.value, st, base, ms, last);
    }
  }

  lemma LargestNext(base: nat, q: Message -> nat, ms: seq<Message>, m: Message)
    ensures Largest(base, q, ms + [m]) == Greatest(Largest(base, q, ms), q(m))
  {
    assert (ms + [m])[..|ms|] == ms;
  }

  lemma AllLargestNext(base: Quantities, ms: seq<Message>, m: Message)
    ensures Largest(base.submitted, Submitted, ms + [m]) == Greatest(Largest(base.submitted, Submitted, ms), m.qty.submitted)
    ensures Largest(base.cancelled, Cancelled, ms + [m]) == Greatest(Largest(base.cancelled, Cancelled, ms), m.qty.cancelled)
    ensures Largest(base.invalid, Invalid, ms + [m]) == Greatest(Largest(base.invalid, Invalid, ms), m.qty.invalid)
  {
    LargestNext(base.submitted, Submitted, ms, m);
    LargestNext(base.cancelled, Cancelled, ms, m);
    LargestNext(base.invalid, Invalid, ms, m);
  }

  lemma BuildingNext(row: Row, st: Statement, base: Quantities, ms: seq<Message>)
    requires Building(row, base, ms) && Ordinary(st) && !st.m.isTerminal
    ensures Building(Execute(Some(row), st).value, base, ms + [st.m])
  {
    AllLargestNext(base, ms, st.m);
  }

  lemma SettlingNext(row: Row, st: Statement, base: Quantities, ms: seq<Message>, last: Message)
    requires row.qty.submitted == Largest(base.submitted, Submitted, ms)
    requires row.qty.cancelled == Largest(base.cancelled, Cancelled, ms)
    requires row.qty.invalid == Largest(base.invalid, Invalid, ms)
    requires Ordinary(st) && st.m.isTerminal && SameEnd(st.m, last)
    ensures OutcomeOf(Execute(Some(row), st).value) == Settled(base, ms + [st.m], last)
  {
    AllLargestNext(base, ms, st.m);
  }

  lemma SettledNext(row: Row, st: Statement, base: Quantities, ms: seq<Message>, last: Message)
    requires OutcomeOf(row) == Settled(base, ms, last) && Ordinary(st) && !st.m.isTerminal
    requires st.m.qty.cumFilled <= last.qty.cumFilled
    ensures OutcomeOf(Execute(Some(row), st).value) == Settled(base, ms + [st.m], last)
  {
    AllLargestNext(base, ms, st.m);
  }

  /** The largest value is determined by which messages there are. */
  lemma {:induction false} LargestBounds(base: nat, q: Message -> nat, ms: seq<Message>)
    ensures base <= Largest(base, q, ms) && forall m | m in ms :: q(m) <= Largest(base, q, ms)
    ensures Largest(base, q, ms) == base || exists m | m in ms :: q(m) == Largest(base, q, ms)
  {
    if ms != [] {
      LargestBounds(base, q, ms[..|ms| - 1]);
      assert ms[|ms| - 1] in ms;
    }
  }

  lemma LargestOfSameMessages(base: nat, q: Message -> nat, ms: seq<Message>, ms': seq<Message>)
    requires Distinct(ms) == Distinct(ms')
    ensures Largest(base, q, ms) == Largest(base, q, ms')
  {
    LargestBounds(base, q, ms);
    LargestBounds(base, q, ms');
    forall m ensures m in ms <==> m in ms' {
      assert m in ms <==> m in Distinct(ms);
      assert m in ms' <==> m in Distinct(ms');
    }
  }

  /**
   Arrival order does not matter: the same messages in any order, each delivered any number of times, by upsert or as
   an event, at any times, give the same outcome, when the terminal ones report one end and none more filled than it.
   */
  lemma ArrivalOrderConverges(row: Row, sts: seq<Statement>, sts': seq<Statement>, last: Message)
    requires !row.isTerminal && EndsAs(sts, last) && EndsAs(sts', last) && SameMessages(sts, sts')
    ensures var r, r' := ExecuteAll(Some(row), sts), ExecuteAll(Some(row), sts');
            r.Some? && r'.Some? && OutcomeOf(r.value) == OutcomeOf(r'.value)
  {
    var ms, ms' := Messages(sts), Messages(sts');
    RunSettles(row, sts, last, |sts|);
    RunSettles(row, sts', last, |sts'|);
    assert sts[..|sts|] == sts && sts'[..|sts'|] == sts';
    LargestOfSameMessages(row.qty.submitted, Submitted, ms, ms');
    LargestOfSameMessages(row.qty.cancelled, Cancelled, ms, ms');
    LargestOfSameMessages(row.qty.invalid, Invalid, ms, ms');
  }

  /** The filled quantity a list of statements leaves behind. */
  function FilledAfter(row: Row, sts: seq<Statement>): nat {
    match ExecuteAll(Some(row), sts)
    case Some(r) => r.qty.cumFilled
    case None => 0
  }

  /** Ordinary non-terminal statements only ever raise the filled quantity, to the largest reported. */
  lemma {:induction false} FilledRises(row: Row, sts: seq<Statement>)
    requires forall st | st in sts :: Ordinary(st) && !st.m.isTerminal
    ensures FilledAfter(row, sts) == Largest(row.qty.cumFilled, Filled, Messages(sts))
    ensures ExecuteAll(Some(row), sts).Some?
  {
    if sts != [] {
      var n := |sts| - 1;
      FilledRises(row, sts[..n]);
      assert Messages(sts)[..n] == Messages(sts[..n]);
      assert Ordinary(sts[n]);
    }
  }

  lemma {:induction false} ExecuteAppend(row: Option<Row>, sts: seq<Statement>, more: seq<Statement>)
    ensures ExecuteAll(row, sts + more) == ExecuteAll(ExecuteAll(row, sts), more)
    decreases |more|
  {
    if more == [] {
      assert sts + more == sts;
    } else {
      var n := |more| - 1;
      ExecuteAppend(row, sts, more[..n]);
      assert (sts + more)[..|sts + more| - 1] == sts + more[..n];
    }
  }

  lemma ExecuteOne(row: Option<Row>, st: Statement)
    ensures ExecuteAll(row, [st]) == Execute(row, st)
  {
    assert [st][..0] == [];
  }

  /**
   The condition on the filled quantity is exact: the terminal message arriving last and arriving first agree
   on it if and only if no other message reports more filled than the terminal one.
   */
  lemma ConvergenceNeedsTheLargest(row: Row, others: seq<Statement>, last: Statement)
    requires (forall st | st in others :: Ordinary(st) && !st.m.isTerminal) && Ordinary(last) && last.m.isTerminal
    ensures FilledAfter(row, others + [last]) == FilledAfter(row, [last] + others)
            <==> forall m | m in Messages(others) :: m.qty.cumFilled <= last.m.qty.cumFilled
  {
    ExecuteAppend(Some(row), others, [last]);
    ExecuteAppend(Some(row), [last], others);
    FilledRises(row, others);
    ExecuteOne(Some(row), last);
    var r := Execute(Some(row), last).value;
    FilledRises(r, others);
    LargestBounds(r.qty.cumFilled, Filled, Messages(others));
  }

  /** And the condition on the ends is: two terminal messages agree on the outcome in either order exactly when they
      report the same end. */
  lemma ConvergenceNeedsOneEnd(row: Row, a: Statement, b: Statement)
    requires Ordinary(a) && Ordinary(b) && a.m.isTerminal && b.m.isTerminal
    ensures var r, r' := ExecuteAll(Some(row), [a, b]), ExecuteAll(Some(row), [b, a]);
            r.Some? && r'.Some? && (OutcomeOf(r.value) == OutcomeOf(r'.value) <==> SameEnd(a.m, b.m))
  {
    ExecuteTwo(Some(row), a, b);
    ExecuteTwo(Some(row), b, a);
    TwoEnds(row, a, b);
    TwoEnds(row, b, a);
  }

  lemma ExecuteTwo(row: Option<Row>, a: Statement, b: Statement)
    ensures ExecuteAll(row, [a, b]) == Execute(Execute(row, a), b)
  {
    assert [a, b] == [a] + [b];
    ExecuteAppend(row, [a], [b]);
    ExecuteOne(row, a);
    ExecuteOne(Execute(row, a), b);
  }

  lemma TwoEnds(row: Row, a: Statement, b: Statement)
    requires Ordinary(a) && Ordinary(b) && a.m.isTerminal && b.m.isTerminal
    ensures Execute(Execute(Some(row), a), b).Some?
    ensures OutcomeOf(Execute(Execute(Some(row), a), b).value)
         == Outcome(b.m.status, b.m.gatewayStatus, true,
                    Quantities(Greatest(row.qty.submitted, Greatest(a.m.qty.submitted, b.m.qty.submitted)),
                               b.m.qty.cumFilled, b.m.qty.leaves,
                               Greatest(row.qty.cancelled, Greatest(a.m.qty.cancelled, b.m.qty.cancelled)),
                               Greatest(row.qty.invalid, Greatest(a.m.qty.invalid, b.m.qty.invalid))))
  {
  }

  /** A row of zeros: storing a first message is merging it into this row, as far as the outcome goes. */
  const BLANK := Row(Quantities(0, 0, 0, 0, 0), "", "", false, None, None, Identity(None, None, None), Reject(None, None), 0.0, map[])

  /** What a statement does to the outcome depends on nothing but the outcome. */
  lemma OutcomesStayEqual(r: Row, r': Row, st: Statement)
    requires OutcomeOf(r) == OutcomeOf(r')
    ensures OutcomeOf(Execute(Some(r), st).value) == OutcomeOf(Execute(Some(r'), st).value)
  {
  }

  lemma {:induction false} FirstMessageIsAMerge(sts: seq<Statement>)
    requires sts != [] && sts[0].ByUpsert? && Ordinary(sts[0])
    ensures var r, b := ExecuteAll(None, sts), ExecuteAll(Some(BLANK), sts);
            r.Some? && b.Some? && OutcomeOf(r.value) == OutcomeOf(b.value)
    decreases |sts|
  {
    var n := |sts| - 1;
    if n == 0 {
      assert sts == [sts[0]];
      ExecuteOne(None, sts[0]);
      ExecuteOne(Some(BLANK), sts[0]);
    } else {
      FirstMessageIsAMerge(sts[..n]);
      OutcomesStayEqual(ExecuteAll(None, sts[..n]).value, ExecuteAll(Some(BLANK), sts[..n]).value, sts[n]);
    }
  }

  /** What is merged of the statements on an order not stored yet: events before its first upsert are lost. */
  function Effective(sts: seq<Statement>): seq<Statement> {
    if sts == [] || sts[0].ByUpsert? then sts else Effective(sts[1..])
  }

  lemma {:induction false} EarlyEventsAreLost(sts: seq<Statement>)
    ensures ExecuteAll(None, sts) == ExecuteAll(None, Effective(sts))
    decreases |sts|
  {
    if sts != [] && !sts[0].ByUpsert? {
      EarlyEventsAreLost(sts[1..]);
      assert sts == [sts[0]] + sts[1..];
      ExecuteAppend(None, [sts[0]], sts[1..]);
      ExecuteOne(None, sts[0]);
    }
  }

  lemma {:induction false} EffectiveBegins(sts: seq<Statement>)
    ensures Effective(sts) != [] ==> Effective(sts)[0].ByUpsert?
    decreases |sts|
  {
    if sts != [] && !sts[0].ByUpsert? {
      EffectiveBegins(sts[1..]);
    }
  }

  /** Arrival order does not matter for an order not stored yet either, once the events before its first upsert are
      left out on both sides. */
  lemma FirstArrivalConverges(sts: seq<Statement>, sts': seq<Statement>, last: Message)
    requires EndsAs(Effective(sts), last) && EndsAs(Effective(sts'), last) && SameMessages(Effective(sts), Effective(sts'))
    ensures var r, r' := ExecuteAll(None, sts), ExecuteAll(None, sts');
            r.Some? && r'.Some? && OutcomeOf(r.value) == OutcomeOf(r'.value)
  {
    EarlyEventsAreLost(sts);
    EarlyEventsAreLost(sts');
    EffectiveBegins(sts);
    EffectiveBegins(sts');
    assert Effective(sts)[0] in Effective(sts) && Effective(sts')[0] in Effective(sts');
    FirstMessageIsAMerge(Effective(sts));
    FirstMessageIsAMerge(Effective(sts'));
    ArrivalOrderConverges(BLANK, Effective(sts), Effective(sts'), last);
  }
}
