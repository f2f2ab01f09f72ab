/** The quality gate of a broker statement: every audit together. */
module BrokerGate {
  import opened BrokerAudit
  import opened BrokerPrice
  import opened BrokerReturn
  import opened BrokerSettlement
  import opened Int64
  import opened Text
  import opened Wrappers

  /** The statement starts from nothing. */
  predicate ZeroAnchor(first: FundsRow) {
    && first.cash == 0 && first.market == 0 && first.total == 0
    && first.deposit == 0 && first.withdrawal == 0 && first.pnl == 0
  }

  /** Totals, cash balances and bank transfers follow from the files, day by day. */
  ghost predicate MoneyAgrees(days: seq<FundsRow>, flows: seq<CashFlow>) {
    && FundsConserved(days, |days|)
    && CashConserved(days, flows, |days|)
    && (forall i | 0 <= i < |days| :: TransfersMatch(days, flows, i))
    && DistinctIds(flows)
  }

  /** Settled rows match cash flows and fills one for one, and positions follow from them. */
  ghost predicate TradesAgree(flows: seq<CashFlow>, rows: seq<SettlementRow>, fills: seq<Fill>) {
    FlowsMatch(rows, flows) && FillsMatch(fills, rows) && Balanced(rows) && NeverShort(rows)
  }

  /** What a statement that passes has in common with its own files. */
  ghost predicate Consistent(days: seq<FundsRow>, flows: seq<CashFlow>, rows: seq<SettlementRow>, fills: seq<Fill>)
    requires days != []
  {
    ZeroAnchor(days[0]) && MoneyAgrees(days, flows) && TradesAgree(flows, rows, fills)
  }

  /** The gate passes exactly the consistent statements; a day that is none or repeats is refused before. */
  method AuditStatement(funds: seq<FundsRow>, flows: seq<CashFlow>, rows: seq<SettlementRow>, fills: seq<Fill>)
    returns (days: Option<seq<FundsRow>>, passed: bool)
    requires funds != [] && forall i | 0 <= i < |funds| :: FitsInt64(funds[i].cash)
    ensures days.None? <==> !(Dated(funds) && DistinctRows(funds))
    ensures days.Some? ==> multiset(days.value) == multiset(funds) && Ordered(days.value) && Dated(days.value)
    ensures days.Some? ==> days.value != []
    ensures passed <==> days.Some? && Consistent(days.value, flows, rows, fills)
  {
    passed := false;
    var identityFailures;
    days, identityFailures := AuditFunds(funds);
    if days.None? {
      return;
    }
    SameRows(funds, days.value);
    var money := AuditMoney(days.value, identityFailures, flows);
    var trades := AuditTrades(flows, rows, fills);
    passed := ZeroAnchor(days.value[0]) && money && trades;
  }

  method AuditMoney(days: seq<FundsRow>, identityFailures: nat, flows: seq<CashFlow>) returns (ok: bool)
    requires Ordered(days) && identityFailures == |IdentityFailures(days, |days|)|
    requires forall i | 0 <= i < |days| :: FitsInt64(days[i].cash)
    ensures ok <==> MoneyAgrees(days, flows)
  {
    var uniqueIds, cashFailures, mismatchedDays := AuditCashFlows(flows, days);
    ok := identityFailures == 0 && uniqueIds == |flows| && cashFailures == 0 && mismatchedDays == 0;
    NoFailureConserves(days, |days|);
    NoCashFailureConserves(days, flows, |days|);
    UniqueIds(flows);
    NoTransferMismatch(days, flows);
  }

  method AuditTrades(flows: seq<CashFlow>, rows: seq<SettlementRow>, fills: seq<Fill>) returns (ok: bool)
    ensures ok <==> TradesAgree(flows, rows, fills)
  {
    var unmatched, positions, negative, executions := AuditSettlement(rows, flows);
    var unfilled := AuditExecutions(fills, executions, rows);
    ok := unmatched == 0 && unfilled == 0 && positions == 0 && negative == 0;
  }

  lemma SameRows(funds: seq<FundsRow>, sorted: seq<FundsRow>)
    requires multiset(sorted) == multiset(funds) && funds != [] && Dated(funds)
    requires forall i | 0 <= i < |funds| :: FitsInt64(funds[i].cash)
    ensures sorted != [] && Dated(sorted) && forall i | 0 <= i < |sorted| :: FitsInt64(sorted[i].cash)
  {
    assert |multiset(sorted)| == |multiset(funds)|;
    forall i | 0 <= i < |sorted| ensures FitsInt64(sorted[i].cash) && CalendarDate(sorted[i].date) {
      assert sorted[i] in multiset(sorted);
      assert sorted[i] in multiset(funds);
    }
  }

  lemma NoTransferMismatch(days: seq<FundsRow>, flows: seq<CashFlow>)
    ensures |TransferMismatches(days, flows, |days|)| == 0 <==> forall i | 0 <= i < |days| :: TransfersMatch(days, flows, i)
  {
    var failing := TransferMismatches(days, flows, |days|);
    if failing == {} {
      forall i | 0 <= i < |days| ensures TransfersMatch(days, flows, i) {
        assert i !in failing;
      }
    }
  }

  /** In a consistent statement each day's assets are the bank transfers so far plus the profit so far. */
  lemma AssetsAreTransfersPlusProfit(days: seq<FundsRow>, flows: seq<CashFlow>, rows: seq<SettlementRow>,
                                     fills: seq<Fill>, i: nat)
    requires Ordered(days) && i < |days| && Consistent(days, flows, rows, fills)
    ensures days[i].total == Wrap(NetWithin(flows, days, i + 1, true) + Profit(days, i + 1))
  {
    assert TransferMismatches(days, flows, |days|) == {};
    TransfersExplainEarnings(days, flows, i + 1);
    assert days[i].total == Wrap(Earned(days, i + 1));
  }

  predicate Separable(parts: seq<string>) {
    forall i | 0 <= i < |parts| :: '|' !in parts[i]
  }

  /** A fill and a settled trade with one key agree field by field, if no field holds the separator. */
  lemma SameTrade(f: Fill, row: SettlementRow)
    requires FillKey(f) == TradeKey(row)
    requires Separable(KeyParts(f.date, f.time, TrimSpace(f.code), f.side, f.qty, NormalizeDecimal(f.price), f.amount))
    requires Separable(KeyParts(row.date, row.time, TrimSpace(row.code), TradeSide(row.side), row.qty,
                                NormalizeDecimal(row.price), row.amount))
    ensures f.date == row.date && f.time == row.time && TrimSpace(f.code) == TrimSpace(row.code)
    ensures f.side == TradeSide(row.side) && f.qty == row.qty && f.amount == row.amount
    ensures NormalizeDecimal(f.price) == NormalizeDecimal(row.price)
  {
    PartsAreEqual(f.date, f.time, TrimSpace(f.code), f.side, f.qty, NormalizeDecimal(f.price), f.amount,
                  row.date, row.time, TrimSpace(row.code), TradeSide(row.side), row.qty, NormalizeDecimal(row.price), row.amount);
  }

  lemma PartsAreEqual(date: string, time: string, code: string, side: string, qty: int, price: string, amount: int,
                      date': string, time': string, code': string, side': string, qty': int, price': string, amount': int)
    requires var a, b := KeyParts(date, time, code, side, qty, price, amount),
                         KeyParts(date', time', code', side', qty', price', amount');
             Join(a) == Join(b) && Separable(a) && Separable(b)
    ensures date == date' && time == time' && code == code' && side == side' && qty == qty' && price == price'
    ensures amount == amount'
  {
    var a, b := KeyParts(date, time, code, side, qty, price, amount), KeyParts(date', time', code', side', qty', price', amount');
    JoinInjective(a, b);
    assert a[0] == b[0] && a[1] == b[1] && a[2] == b[2] && a[3] == b[3] && a[4] == b[4] && a[5] == b[5] && a[6] == b[6];
    FormatIntInjective(qty, qty');
    FormatIntInjective(amount, amount');
  }
}
