/**
 Orders and fee records in one database: the three statements that touch them, in any sequence. A fee record is copied
 to its order when it is trusted, and later order messages may overwrite that fee again.
 */
module OrderLedger {
  import opened FeeMerge
  import opened OrderMerge
  import opened Wrappers

  datatype Tables = Tables(records: map<RecordKey, FeeRecord>, orders: map<OrderKey, Row>)

  datatype Op = OnOrder(key: OrderKey, statement: Statement) | OnRecord(recordKey: RecordKey, record: FeeRecord)

  const EMPTY := Tables(map[], map[])

  function Lookup(orders: map<OrderKey, Row>, key: OrderKey): Option<Row> {
    if key in orders then Some(orders[key]) else None
  }

  function Storing(orders: map<OrderKey, Row>, key: OrderKey, result: Option<Row>): map<OrderKey, Row> {
    if result.Some? then orders[key := result.value] else orders
  }

  function Apply(t: Tables, op: Op): Tables {
    match op
    case OnOrder(key, st) => t.(orders := Storing(t.orders, key, Execute(Lookup(t.orders, key), st)))
    case OnRecord(k, r) =>
      var effective := EffectiveRecord(t.records, k, r);
      Tables(t.records[k := effective], WriteThrough(t.orders, k.id, effective))
  }

  function After(ops: seq<Op>): Tables {
    if ops == [] then EMPTY else Apply(After(ops[..|ops| - 1]), ops[|ops| - 1])
  }

  lemma AfterNext(ops: seq<Op>, op: Op)
    ensures After(ops + [op]) == Apply(After(ops), op)
  {
    assert (ops + [op])[..|ops|] == ops;
  }

  // Orders are the merge of their own statements

  function StatementsOf(ops: seq<Op>, key: OrderKey): seq<Statement> {
    if ops == [] then []
    else
      var last := ops[|ops| - 1];
      StatementsOf(ops[..|ops| - 1], key) + (if last.OnOrder? && last.key == key then [last.statement] else [])
  }

  lemma StatementsNext(ops: seq<Op>, op: Op, key: OrderKey)
    ensures StatementsOf(ops + [op], key)
         == StatementsOf(ops, key) + (if op.OnOrder? && op.key == key then [op.statement] else [])
    ensures ExecuteAll(None, StatementsOf(ops + [op], key))
         == if op.OnOrder? && op.key == key then Execute(ExecuteAll(None, StatementsOf(ops, key)), op.statement)
            else ExecuteAll(None, StatementsOf(ops, key))
  {
    assert (ops + [op])[..|ops|] == ops;
    if op.OnOrder? && op.key == key {
      ExecuteAppend(None, StatementsOf(ops, key), [op.statement]);
      ExecuteOne(ExecuteAll(None, StatementsOf(ops, key)), op.statement);
    } else {
      assert StatementsOf(ops, key) + [] == StatementsOf(ops, key);
    }
  }

  /** A row without the columns a fee record writes. */
  function BesideFee(row: Row): Row {
    row.(fee := 0.0, context := map[])
  }

  predicate SameBesideFee(r: Option<Row>, r': Option<Row>) {
    (r.Some? <==> r'.Some?) && (r.Some? ==> BesideFee(r.value) == BesideFee(r'.value))
  }

  /** Neither statement reads the fee or the context of the stored row for any other column. */
  lemma SameBesideFeeStays(r: Option<Row>, r': Option<Row>, st: Statement)
    requires SameBesideFee(r, r')
    ensures SameBesideFee(Execute(r, st), Execute(r', st))
  {
  }

  lemma WriteThroughBesideFee(orders: map<OrderKey, Row>, id: string, effective: FeeRecord, key: OrderKey)
    ensures SameBesideFee(Lookup(WriteThrough(orders, id, effective), key), Lookup(orders, key))
  {
  }

  /** Fee columns aside, each order is the merge of exactly its own statements, in the order they were run. */
  lemma {:induction false} OrdersAreMerged(ops: seq<Op>, key: OrderKey)
    ensures SameBesideFee(Lookup(After(ops).orders, key), ExecuteAll(None, StatementsOf(ops, key)))
    decreases |ops|
  {
    if ops != [] {
      var before, op := ops[..|ops| - 1], ops[|ops| - 1];
      OrdersAreMerged(before, key);
      assert ops == before + [op];
      StatementsNext(before, op, key);
      match op
      case OnOrder(k, st) =>
        SameBesideFeeStays(Lookup(After(before).orders, key), ExecuteAll(None, StatementsOf(before, key)), st);
        NoneStaysNone(Lookup(After(before).orders, k), st);
      case OnRecord(k, r) =>
        WriteThroughBesideFee(After(before).orders, k.id, EffectiveRecord(After(before).records, k, r), key);
    }
  }

  predicate UpsertedBefore(ops: seq<Op>, key: OrderKey) {
    exists op | op in ops :: op.OnOrder? && op.key == key && op.statement.ByUpsert?
  }

  lemma {:induction false} StatementsKeepKind(ops: seq<Op>, key: OrderKey)
    ensures HasUpsert(StatementsOf(ops, key)) <==> UpsertedBefore(ops, key)
    decreases |ops|
  {
    if ops != [] {
      var n := |ops| - 1;
      StatementsKeepKind(ops[..n], key);
      assert ops == ops[..n] + [ops[n]];
    }
  }

  /** An order is stored exactly when one of its messages was upserted. */
  lemma StoredOnceUpserted(ops: seq<Op>, key: OrderKey)
    ensures key in After(ops).orders <==> UpsertedBefore(ops, key)
  {
    OrdersAreMerged(ops, key);
    StoredByUpsert(StatementsOf(ops, key));
    StatementsKeepKind(ops, key);
  }

  // The tables

  class Ledger {
    var records: map<RecordKey, FeeRecord>
    var orders: map<OrderKey, Row>
    /** Every statement run so far. */
    ghost var ops: seq<Op>

    ghost predicate Valid()
      reads this
    {
      Tables(records, orders) == After(ops)
    }

    constructor ()
      ensures Valid() && ops == []
    {
      records, orders, ops := map[], map[], [];
    }

    method UpsertOrder(key: OrderKey, m: Message, pastTerminal: Option<Time>, now: Time)
      requires Valid()
      modifies this
      ensures Valid() && ops == old(ops) + [OnOrder(key, ByUpsert(m, pastTerminal, now))]
      ensures key in orders && orders - {key} == old(orders) - {key} && records == old(records)
    {
      AfterNext(ops, OnOrder(key, ByUpsert(m, pastTerminal, now)));
      orders := orders[key := if key in orders then Upsert(orders[key], m, pastTerminal, now) else m];
      ops := ops + [OnOrder(key, ByUpsert(m, pastTerminal, now))];
    }

    /** Found exactly when a message of that order has been upserted before. */
    method UpdateOrderStatus(key: OrderKey, m: Message, now: Time) returns (found: bool)
      requires Valid()
      modifies this
      ensures Valid() && ops == old(ops) + [OnOrder(key, ByEvent(m, now))]
      ensures found <==> UpsertedBefore(old(ops), key)
      ensures records == old(records)
      ensures if found then orders - {key} == old(orders) - {key} else orders == old(orders)
    {
      AfterNext(ops, OnOrder(key, ByEvent(m, now)));
      StoredOnceUpserted(ops, key);
      found := key in orders;
      if found {
        orders := orders[key := UpdateStatus(orders[key], m, now)];
      }
      ops := ops + [OnOrder(key, ByEvent(m, now))];
    }

    /** One statement: merge the record, then copy what is now stored, if trusted, to its order. */
    method UpsertOrderFeeRecord(k: RecordKey, r: FeeRecord)
      requires Valid()
      modifies this
      ensures Valid() && ops == old(ops) + [OnRecord(k, r)]
      ensures k in records && records - {k} == old(records) - {k}
      ensures Trusted(records[k]) && records[k].order in orders ==>
                orders[records[k].order].fee == records[k].total && Marked(orders[records[k].order])
      ensures forall key :: SameBesideFee(Lookup(orders, key), Lookup(old(orders), key))
    {
      AfterNext(ops, OnRecord(k, r));
      forall key ensures SameBesideFee(Lookup(Apply(After(ops), OnRecord(k, r)).orders, key), Lookup(orders, key)) {
        WriteThroughBesideFee(orders, k.id, EffectiveRecord(records, k, r), key);
      }
      var upserted := k !in records || Accepts(records[k], r);
      if upserted {
        records := records[k := r];
      }
      var effective := records[k];
      if effective.complete && effective.associated && effective.source != UNAVAILABLE && effective.order in orders {
        var o := orders[effective.order];
        orders := orders[effective.order := o.(fee := effective.total,
          context := o.context + map[FEE_RECORD_KEY := k.id, "fee_complete" := "true", "fee_source" := effective.source])];
      }
      ops := ops + [OnRecord(k, r)];
    }
  }

  /** Two databases that were sent the same messages of an order, in any order, any number of times, among any others and
      with any fee records between them, hold the same outcome for it, once it is over. */
  lemma LedgersConverge(x: Ledger, y: Ledger, key: OrderKey, last: Message)
    requires x.Valid() && y.Valid()
    requires EndsAs(Effective(StatementsOf(x.ops, key)), last) && EndsAs(Effective(StatementsOf(y.ops, key)), last)
    requires SameMessages(Effective(StatementsOf(x.ops, key)), Effective(StatementsOf(y.ops, key)))
    ensures key in x.orders && key in y.orders && OutcomeOf(x.orders[key]) == OutcomeOf(y.orders[key])
  {
    FirstArrivalConverges(StatementsOf(x.ops, key), StatementsOf(y.ops, key), last);
    OrdersAreMerged(x.ops, key);
    OrdersAreMerged(y.ops, key);
    var r, r' := ExecuteAll(None, StatementsOf(x.ops, key)).value, ExecuteAll(None, StatementsOf(y.ops, key)).value;
    assert OutcomeOf(BesideFee(x.orders[key])) == OutcomeOf(BesideFee(r));
    assert OutcomeOf(BesideFee(y.orders[key])) == OutcomeOf(BesideFee(r'));
  }

  // Do fees agree?

  /** Does a trusted record belong to this order? */
  ghost predicate HasTrusted(records: map<RecordKey, FeeRecord>, key: OrderKey) {
    exists k :: k in records && Trusted(records[k]) && records[k].order == key
  }

  /** Does a statement leave the fee of a stored order at what it is? */
  predicate KeepsFee(row: Row, st: Statement) {
    match st
    case ByUpsert(m, _, _) => (Marked(row) && ReportedFeeSource(m) == UNAVAILABLE) || m.fee == row.fee
    case ByEvent(m, _) => m.fee <= row.fee
  }

  /** A first message has to bring the fee of every trusted record that arrived before it. */
  ghost predicate BringsFees(records: map<RecordKey, FeeRecord>, key: OrderKey, st: Statement) {
    st.ByUpsert? ==>
      forall k | k in records && Trusted(records[k]) && records[k].order == key :: records[k].total == st.m.fee
  }

  /** What a caller can check before running a statement. */
  ghost predicate Harmless(t: Tables, op: Op) {
    match op
    case OnOrder(key, st) =>
      if key in t.orders then HasTrusted(t.records, key) ==> KeepsFee(t.orders[key], st)
      else BringsFees(t.records, key, st)
    case OnRecord(k, r) =>
      var effective := EffectiveRecord(t.records, k, r);
      !(Trusted(effective) && effective.order in t.orders && Contradicted(t.records, k, effective))
  }

  lemma FeeAfter(row: Row, st: Statement)
    ensures Execute(Some(row), st).Some?
    ensures Execute(Some(row), st).value.fee == row.fee <==> KeepsFee(row, st)
  {
  }

  /** Agreement after a statement on one order is agreement for that order. */
  lemma OneOrderAgrees(records: map<RecordKey, FeeRecord>, orders: map<OrderKey, Row>, key: OrderKey, row: Row)
    requires FeesAgree(records, orders)
    ensures FeesAgree(records, orders[key := row])
            <==> forall k | k in records && Trusted(records[k]) && records[k].order == key :: row.fee == records[k].total
  {
    var orders' := orders[key := row];
    if FeesAgree(records, orders') {
      forall k | k in records && Trusted(records[k]) && records[k].order == key ensures row.fee == records[k].total {
        assert records[k].order in orders';
      }
    }
  }

  lemma StoredOrderAgrees(t: Tables, key: OrderKey, st: Statement)
    requires FeesAgree(t.records, t.orders) && key in t.orders
    ensures var t' := Apply(t, OnOrder(key, st));
            FeesAgree(t'.records, t'.orders) <==> (HasTrusted(t.records, key) ==> KeepsFee(t.orders[key], st))
  {
    var row := t.orders[key];
    FeeAfter(row, st);
    OneOrderAgrees(t.records, t.orders, key, Execute(Some(row), st).value);
    forall k | k in t.records && Trusted(t.records[k]) && t.records[k].order == key ensures t.records[k].total == row.fee {
    }
  }

  /** A statement keeps fees in agreement exactly when it is harmless. */
  lemma AgreementStep(t: Tables, op: Op)
    requires FeesAgree(t.records, t.orders)
    ensures FeesAgree(Apply(t, op).records, Apply(t, op).orders) <==> Harmless(t, op)
  {
    match op
    case OnOrder(key, st) =>
      if key in t.orders {
        StoredOrderAgrees(t, key, st);
      } else if st.ByUpsert? {
        OneOrderAgrees(t.records, t.orders, key, st.m);
      }
    case OnRecord(k, r) => AgreementKeptExactly(t.records, t.orders, k, r);
  }

  ghost predicate AgreesAt(ops: seq<Op>, n: nat)
    requires n <= |ops|
  {
    FeesAgree(After(ops[..n]).records, After(ops[..n]).orders)
  }

  lemma AgreesNext(ops: seq<Op>, n: nat)
    requires n < |ops| && AgreesAt(ops, n)
    ensures AgreesAt(ops, n + 1) <==> Harmless(After(ops[..n]), ops[n])
  {
    assert ops[..n + 1] == ops[..n] + [ops[n]];
    AfterNext(ops[..n], ops[n]);
    AgreementStep(After(ops[..n]), ops[n]);
  }

  lemma {:induction false} HarmlessRunsAgree(ops: seq<Op>, n: nat)
    requires n <= |ops| && forall i | 0 <= i < n :: Harmless(After(ops[..i]), ops[i])
    ensures AgreesAt(ops, n)
  {
    if n > 0 {
      HarmlessRunsAgree(ops, n - 1);
      AgreesNext(ops, n - 1);
    } else {
      assert ops[..0] == [];
    }
  }

  /** Fees agree throughout a run of upserts, events and fee records exactly when each statement was harmless when it
      was run. */
  lemma AgreementOverRuns(ops: seq<Op>)
    ensures (forall n | 0 <= n <= |ops| :: AgreesAt(ops, n))
            <==> forall n | 0 <= n < |ops| :: Harmless(After(ops[..n]), ops[n])
  {
    if forall n | 0 <= n <= |ops| :: AgreesAt(ops, n) {
      forall n | 0 <= n < |ops| ensures Harmless(After(ops[..n]), ops[n]) {
        assert AgreesAt(ops, n) && AgreesAt(ops, n + 1);
        AgreesNext(ops, n);
      }
    }
    if forall n | 0 <= n < |ops| :: Harmless(After(ops[..n]), ops[n]) {
      forall n | 0 <= n <= |ops| ensures AgreesAt(ops, n) {
        HarmlessRunsAgree(ops, n);
      }
    }
  }

  /** An order first stored after a trusted fee record takes its own fee: the two agree only by coincidence. */
  lemma OrderStoredLater(t: Tables, k: RecordKey, m: Message, past: Option<Time>, now: Time)
    requires FeesAgree(t.records, t.orders) && k in t.records && Trusted(t.records[k]) && t.records[k].order !in t.orders
    requires m.fee != t.records[k].total
    ensures var t' := Apply(t, OnOrder(t.records[k].order, ByUpsert(m, past, now)));
            t'.orders[t.records[k].order].fee == m.fee && !FeesAgree(t'.records, t'.orders)
  {
    AgreementStep(t, OnOrder(t.records[k].order, ByUpsert(m, past, now)));
  }

  // Runs in which they always do

  /** Fee records and orders go one to one. */
  predicate OneRecordPerOrder(ops: seq<Op>) {
    forall o, p | o in ops && p in ops && o.OnRecord? && p.OnRecord? ::
      o.recordKey == p.recordKey <==> o.record.order == p.record.order
  }

  /** A trusted record comes after a first message of its order. */
  ghost predicate OrdersComeFirst(ops: seq<Op>) {
    forall n | 0 <= n < |ops| && ops[n].OnRecord? && Trusted(ops[n].record) :: UpsertedBefore(ops[..n], ops[n].record.order)
  }

  /** An order message that reports no fee and, if it is a counter reply, keeps the mark; or a record of no negative fee. */
  predicate Quiet(op: Op) {
    match op
    case OnOrder(_, ByUpsert(m, _, _)) =>
      ReportedFeeSource(m) == UNAVAILABLE && (Authoritative(m) ==> FEE_RECORD_KEY in m.context)
    case OnOrder(_, ByEvent(m, _)) => m.fee <= 0.0
    case OnRecord(_, r) => r.total >= 0.0
  }

  ghost predicate Protected(orders: map<OrderKey, Row>, r: FeeRecord) {
    r.order in orders && Marked(orders[r.order]) && orders[r.order].fee == r.total >= 0.0
  }

  predicate SentBefore(ops: seq<Op>, k: RecordKey, r: FeeRecord) {
    OnRecord(k, r) in ops
  }

  /** Every record was sent, and every trusted one is copied to its order and protected there. */
  ghost predicate AllProtected(t: Tables, ops: seq<Op>) {
    forall k | k in t.records ::
      SentBefore(ops, k, t.records[k]) && (Trusted(t.records[k]) ==> Protected(t.orders, t.records[k]))
  }

  lemma MessageProtects(t: Tables, ops: seq<Op>, key: OrderKey, st: Statement)
    requires AllProtected(t, ops) && Quiet(OnOrder(key, st))
    ensures AllProtected(Apply(t, OnOrder(key, st)), ops + [OnOrder(key, st)])
  {
    var t' := Apply(t, OnOrder(key, st));
    forall k | k in t.records
      ensures SentBefore(ops + [OnOrder(key, st)], k, t.records[k])
      ensures Trusted(t.records[k]) ==> Protected(t'.orders, t.records[k])
    {
      assert SentBefore(ops, k, t.records[k]);
      if Trusted(t.records[k]) && t.records[k].order == key {
        FeeKeptExactly(t.orders[key], st);
      }
    }
  }

  lemma RecordProtects(t: Tables, ops: seq<Op>, k: RecordKey, r: FeeRecord)
    requires AllProtected(t, ops) && Quiet(OnRecord(k, r)) && OneRecordPerOrder(ops + [OnRecord(k, r)])
    requires Trusted(r) ==> r.order in t.orders
    ensures AllProtected(Apply(t, OnRecord(k, r)), ops + [OnRecord(k, r)])
  {
    var t', effective := Apply(t, OnRecord(k, r)), EffectiveRecord(t.records, k, r);
    var all := ops + [OnRecord(k, r)];
    assert SentBefore(all, k, effective) by {
      assert k in t.records ==> SentBefore(ops, k, t.records[k]);
      assert OnRecord(k, r) in all;
    }
    forall l | l in t'.records
      ensures SentBefore(all, l, t'.records[l]) && (Trusted(t'.records[l]) ==> Protected(t'.orders, t'.records[l]))
    {
      if l != k {
        assert SentBefore(ops, l, t.records[l]);
        assert OnRecord(l, t.records[l]) in all && OnRecord(k, effective) in all;
        assert t.records[l].order != effective.order;
      }
    }
  }

  lemma {:induction false} QuietRunProtects(ops: seq<Op>, n: nat)
    requires n <= |ops| && OneRecordPerOrder(ops) && OrdersComeFirst(ops) && forall op | op in ops :: Quiet(op)
    ensures AllProtected(After(ops[..n]), ops[..n])
  {
    if n == 0 {
      assert ops[..0] == [];
    } else {
      var before, op := ops[..n - 1], ops[n - 1];
      QuietRunProtects(ops, n - 1);
      assert ops[..n] == before + [op];
      AfterNext(before, op);
      match op
      case OnOrder(key, st) => MessageProtects(After(before), before, key, st);
      case OnRecord(k, r) =>
        StoredOnceUpserted(before, r.order);
        assert OneRecordPerOrder(before + [op]);
        RecordProtects(After(before), before, k, r);
    }
  }

  /** One fee record per order, sent after a first message of the order, and order messages that report no fee: then
      every trusted record agrees with its order at all times. */
  lemma QuietRunsAgree(ops: seq<Op>, n: nat)
    requires n <= |ops| && OneRecordPerOrder(ops) && OrdersComeFirst(ops) && forall op | op in ops :: Quiet(op)
    ensures AgreesAt(ops, n)
  {
    QuietRunProtects(ops, n);
    var t := After(ops[..n]);
    assert forall k | k in t.records && Trusted(t.records[k]) :: Protected(t.orders, t.records[k]);
  }
}
