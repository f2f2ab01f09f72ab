/** Fee records and their write-through to the order they belong to. */
module FeeMerge {
  import opened Wrappers
  import opened OrderMerge

  // Amounts are kept to six decimals

  function RoundAmount(v: real): real
    requires v >= 0.0
  {
    (v * 1000000.0 + 0.5).Floor as real / 1000000.0
  }

  /** Rounding moves an amount by at most half a millionth, and a rounded amount no further. */
  lemma RoundAmountNear(v: real)
    requires v >= 0.0
    ensures RoundAmount(v) >= 0.0 && -0.0000005 <= RoundAmount(v) - v <= 0.0000005
    ensures RoundAmount(RoundAmount(v)) == RoundAmount(v)
  {
    var n := (v * 1000000.0 + 0.5).Floor;
    assert n as real <= v * 1000000.0 + 0.5 < n as real + 1.0;
    assert RoundAmount(v) * 1000000.0 == n as real;
    assert (n as real + 0.5).Floor == n;
  }

  /** The validation loop: it rounds every amount in place, and refuses a negative one. */
  method NormalizeAmounts(amounts: array<real>) returns (ok: bool)
    modifies amounts
    ensures ok <==> forall i | 0 <= i < amounts.Length :: old(amounts[i]) >= 0.0
    ensures ok ==> forall i | 0 <= i < amounts.Length :: amounts[i] == RoundAmount(old(amounts[i]))
  {
    for k := 0 to amounts.Length
      invariant forall i | 0 <= i < k :: old(amounts[i]) >= 0.0 && amounts[i] == RoundAmount(old(amounts[i]))
      invariant forall i | k <= i < amounts.Length :: amounts[i] == old(amounts[i])
    {
      if amounts[k] < 0.0 {
        return false;
      }
      amounts[k] := RoundAmount(amounts[k]);
    }
    ok := true;
  }

  // The merge of one record

  datatype FeeRecord = FeeRecord(order: OrderKey, total: real, complete: bool, source: string, asOf: Time,
                                 associated: bool, payload: string)

  predicate Trusted(r: FeeRecord) {
    r.complete && r.associated && r.source != UNAVAILABLE
  }

  /** The WHERE clause of the conflict update. */
  predicate Accepts(stored: FeeRecord, r: FeeRecord) {
    || (r.asOf > stored.asOf && (!Trusted(stored) || Trusted(r)))
    || (r.asOf == stored.asOf && Trusted(r) && !Trusted(stored))
  }

  function Merge(stored: Option<FeeRecord>, r: FeeRecord): FeeRecord {
    if stored.Some? && !Accepts(stored.value, r) then stored.value else r
  }

  function MergeAll(stored: Option<FeeRecord>, rs: seq<FeeRecord>): Option<FeeRecord> {
    if rs == [] then stored else Some(Merge(MergeAll(stored, rs[..|rs| - 1]), rs[|rs| - 1]))
  }

  /** Over any messages the time of a record never falls, and a trusted record never becomes untrusted. */
  lemma {:induction false} TrustAndTimeNeverFall(stored: FeeRecord, rs: seq<FeeRecord>)
    ensures var r := MergeAll(Some(stored), rs);
            r.Some? && r.value.asOf >= stored.asOf && (Trusted(stored) ==> Trusted(r.value))
  {
    if rs != [] {
      TrustAndTimeNeverFall(stored, rs[..|rs| - 1]);
    }
  }

  lemma {:induction false} MergedIsOneOfThem(stored: Option<FeeRecord>, rs: seq<FeeRecord>)
    ensures var r := MergeAll(stored, rs); r.Some? && r != stored ==> r.value in rs
  {
    if rs != [] {
      MergedIsOneOfThem(stored, rs[..|rs| - 1]);
    }
  }

  /** A trusted record newer than everything else ends up stored, in whatever order the messages arrive and
      however often they are replayed. */
  lemma {:induction false} NewestTrustedSurvives(stored: Option<FeeRecord>, rs: seq<FeeRecord>, best: FeeRecord)
    requires Trusted(best) && best in rs
    requires stored.Some? ==> stored.value.asOf < best.asOf
    requires forall r | r in rs && r != best :: r.asOf < best.asOf
    ensures MergeAll(stored, rs) == Some(best)
  {
    var n := |rs| - 1;
    if best in rs[..n] {
      NewestTrustedSurvives(stored, rs[..n], best);
    } else {
      MergedIsOneOfThem(stored, rs[..n]);
      assert rs[n] == best;
    }
  }

  /** Two records end up the same way in either order exactly when they are not a tie in time and trust, and the
      newer one is not an untrusted one after a trusted one. */
  lemma TwoRecordsCommute(a: FeeRecord, b: FeeRecord)
    ensures MergeAll(None, [a, b]) == MergeAll(None, [b, a])
            <==> a == b
                 || (!(a.asOf == b.asOf && Trusted(a) == Trusted(b))
                     && !(a.asOf < b.asOf && Trusted(a) && !Trusted(b))
                     && !(b.asOf < a.asOf && Trusted(b) && !Trusted(a)))
  {
    MergeTwo(a, b);
    MergeTwo(b, a);
  }

  lemma MergeTwo(a: FeeRecord, b: FeeRecord)
    ensures MergeAll(None, [a, b]) == Some(Merge(Some(a), b))
  {
    MergeOne(a);
    assert [a, b][..1] == [a];
  }

  lemma MergeOne(r: FeeRecord)
    ensures MergeAll(None, [r]) == Some(r)
  {
    assert [r][..0] == [];
  }

  // The statement

  datatype RecordKey = RecordKey(account: string, id: string)

  /** Every trusted record whose order is stored agrees with that order's fee. */
  ghost predicate FeesAgree(records: map<RecordKey, FeeRecord>, orders: map<OrderKey, Row>) {
    forall k | k in records && Trusted(records[k]) && records[k].order in orders ::
      orders[records[k].order].fee == records[k].total
  }

  function WriteThrough(orders: map<OrderKey, Row>, id: string, effective: FeeRecord): map<OrderKey, Row> {
    if Trusted(effective) && effective.order in orders then
      var o := orders[effective.order];
      orders[effective.order := o.(fee := effective.total,
        context := o.context + map[FEE_RECORD_KEY := id, "fee_complete" := "true", "fee_source" := effective.source])]
    else orders
  }

  /** What is stored after the statement: the incoming record, or the one there if it is not accepted. */
  function EffectiveRecord(records: map<RecordKey, FeeRecord>, k: RecordKey, r: FeeRecord): FeeRecord {
    Merge(if k in records then Some(records[k]) else None, r)
  }

  /** Does another trusted record of the same order carry a different total? */
  ghost predicate Contradicted(records: map<RecordKey, FeeRecord>, k: RecordKey, effective: FeeRecord) {
    exists l :: l in records && l != k && Trusted(records[l]) && records[l].order == effective.order
                && records[l].total != effective.total
  }

  /**
   A call keeps all fees in agreement exactly when no other trusted record of the order it writes carries a
   different total: the statement keeps one record per order consistent, not several.
   */
  lemma AgreementKeptExactly(records: map<RecordKey, FeeRecord>, orders: map<OrderKey, Row>, k: RecordKey, r: FeeRecord)
    requires FeesAgree(records, orders)
    ensures var effective := EffectiveRecord(records, k, r);
            FeesAgree(records[k := effective], WriteThrough(orders, k.id, effective))
            <==> !(Trusted(effective) && effective.order in orders && Contradicted(records, k, effective))
  {
    var effective := EffectiveRecord(records, k, r);
    var records', orders' := records[k := effective], WriteThrough(orders, k.id, effective);
    if Trusted(effective) && effective.order in orders {
      if Contradicted(records, k, effective) {
        var l :| l in records && l != k && Trusted(records[l]) && records[l].order == effective.order
                 && records[l].total != effective.total;
        assert l in records' && Trusted(records'[l]) && orders'[records'[l].order].fee != records'[l].total;
      }
    }
  }

  /** Two trusted records of one order: the second call leaves the first record's total behind. */
  lemma SecondRecordOverwrites()
    ensures var o := OrderKey("A", "2026-09-01", "G1");
            var a := FeeRecord(o, 5.0, true, "broker", 10, true, "");
            var b := FeeRecord(o, 7.0, true, "broker", 11, true, "");
            var orders := WriteThrough(map[o := BLANK], "r1", a);
            && FeesAgree(map[RecordKey("A", "r1") := a], orders)
            && !FeesAgree(map[RecordKey("A", "r1") := a][RecordKey("A", "r2") := b], WriteThrough(orders, "r2", b))
  {
    var o := OrderKey("A", "2026-09-01", "G1");
    var a := FeeRecord(o, 5.0, true, "broker", 10, true, "");
    var b := FeeRecord(o, 7.0, true, "broker", 11, true, "");
    var k, l := RecordKey("A", "r1"), RecordKey("A", "r2");
    assert k.id[1] != l.id[1];
    var records := map[k := a][l := b];
    var orders := WriteThrough(WriteThrough(map[o := BLANK], "r1", a), "r2", b);
    assert k in records && records[k] == a && orders[o].fee == 7.0;
  }

  // Orders rewritten after their fee record arrived

  predicate Marked(row: Row) {
    FEE_RECORD_KEY in row.context
  }

  /** A statement that touches neither a written-through fee nor its mark: an upsert that reports no fee, or this
      one, and is no counter reply without the mark; an event that carries no larger fee. */
  predicate LeavesFee(fee: real, st: Statement) {
    match st
    case ByUpsert(m, _, _) =>
      && (ReportedFeeSource(m) == UNAVAILABLE || m.fee == fee)
      && (Authoritative(m) ==> FEE_RECORD_KEY in m.context)
    case ByEvent(m, _) => m.fee <= fee
  }

  /** One statement keeps the fee and its mark exactly when it is such a statement. */
  lemma FeeKeptExactly(row: Row, st: Statement)
    requires Marked(row)
    ensures var r := Execute(Some(row), st);
            r.Some? && (r.value.fee == row.fee && Marked(r.value) <==> LeavesFee(row.fee, st))
  {
  }

  /** The fee and its mark are there after every one of the statements. */
  ghost predicate FeeStays(row: Row, sts: seq<Statement>) {
    forall n | 0 <= n <= |sts| :: FeeThere(row, sts[..n])
  }

  predicate FeeThere(row: Row, sts: seq<Statement>) {
    var r := ExecuteAll(Some(row), sts);
    r.Some? && r.value.fee == row.fee && Marked(r.value)
  }

  lemma StepOfRun(row: Row, sts: seq<Statement>, n: nat)
    requires n < |sts| && Marked(row) && FeeThere(row, sts[..n])
    ensures FeeThere(row, sts[..n + 1]) <==> LeavesFee(row.fee, sts[n])
  {
    assert sts[..n + 1][..n] == sts[..n];
    FeeKeptExactly(ExecuteAll(Some(row), sts[..n]).value, sts[n]);
  }

  lemma {:induction false} LeftAloneStays(row: Row, sts: seq<Statement>, n: nat)
    requires n <= |sts| && Marked(row) && forall st | st in sts :: LeavesFee(row.fee, st)
    ensures FeeThere(row, sts[..n])
  {
    if n == 0 {
      assert sts[..0] == [];
    } else {
      LeftAloneStays(row, sts, n - 1);
      StepOfRun(row, sts, n - 1);
    }
  }

  /** Once written through, a fee and its mark outlive later statements on the order exactly when each of them
      leaves them alone. */
  lemma WrittenFeeStays(row: Row, sts: seq<Statement>)
    requires Marked(row)
    ensures FeeStays(row, sts) <==> forall st | st in sts :: LeavesFee(row.fee, st)
  {
    if FeeStays(row, sts) {
      forall n | 0 <= n < |sts| ensures LeavesFee(row.fee, sts[n]) {
        assert FeeThere(row, sts[..n]) && FeeThere(row, sts[..n + 1]);
        StepOfRun(row, sts, n);
      }
    }
    if forall st | st in sts :: LeavesFee(row.fee, st) {
      forall n | 0 <= n <= |sts| ensures FeeThere(row, sts[..n]) {
        LeftAloneStays(row, sts, n);
      }
    }
  }

  /** A counter reply without the mark drops it, and then any later message overwrites the fee. */
  lemma ReplyDropsTheMark(row: Row, reply: Message, m: Message, past: Option<Time>, now: Time)
    requires Authoritative(reply) && FEE_RECORD_KEY !in reply.context && Marked(row)
    requires ReportedFeeSource(reply) == UNAVAILABLE && !Authoritative(m)
    ensures Upsert(row, reply, past, now).fee == row.fee
    ensures Upsert(Upsert(row, reply, past, now), m, past, now).fee == m.fee
  {
  }

  /** An order event with a larger fee overwrites a written-through fee, mark or no mark, and leaves the trusted
      record it came from in disagreement with its order. */
  lemma EventOverwrites(records: map<RecordKey, FeeRecord>, orders: map<OrderKey, Row>, k: RecordKey, m: Message, now: Time)
    requires FeesAgree(records, orders) && k in records && Trusted(records[k]) && records[k].order in orders
    requires m.fee > records[k].total
    ensures var o := records[k].order;
            var row := UpdateStatus(orders[o], m, now);
            row.fee == m.fee && !FeesAgree(records, orders[o := row])
  {
    var o := records[k].order;
    var orders' := orders[o := UpdateStatus(orders[o], m, now)];
    assert k in records && o in orders' && orders'[o].fee != records[k].total;
  }
}
