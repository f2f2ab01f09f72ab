/** Matching settlement rows against cash flows, fills and reported positions. */
module BrokerSettlement {
  import opened BrokerCounter
  import opened BrokerMoney
  import opened BrokerPrice
  import opened BrokerReturn
  import opened Int64
  import opened Text
  import opened Wrappers

  datatype SettlementRow = SettlementRow(date: string, time: string, code: string, side: string, qty: int,
                                         price: string, amount: int, paid: int, balance: int)

  datatype Fill = Fill(date: string, time: string, code: string, side: string, qty: int, price: string,
                       amount: int, id: string)

  // Keys

  /** `strings.Join(parts, "|")`. */
  function Join(parts: seq<string>): string {
    if parts == [] then ""
    else if |parts| == 1 then parts[0]
    else parts[0] + "|" + Join(parts[1..])
  }

  /** Keys of fields without separators tell different fields apart. */
  lemma {:induction false} JoinInjective(a: seq<string>, b: seq<string>)
    requires |a| == |b| && Join(a) == Join(b)
    requires forall i | 0 <= i < |a| :: '|' !in a[i] && '|' !in b[i]
    ensures a == b
    decreases |a|
  {
    if |a| == 1 {
      assert a == [a[0]] && b == [b[0]];
    } else if |a| > 1 {
      assert a[0] + ['|'] + Join(a[1..]) == b[0] + ['|'] + Join(b[1..]);
      CutAt(a[0], Join(a[1..]), b[0], Join(b[1..]), '|');
      JoinInjective(a[1..], b[1..]);
      assert a == [a[0]] + a[1..] && b == [b[0]] + b[1..];
    }
  }

  lemma FormatIntInjective(x: int, y: int)
    requires FormatInt(x) == FormatInt(y)
    ensures x == y
  {
    var m, n := if x < 0 then -x else x, if y < 0 then -y else y;
    assert IsDigit(FormatNat(m)[0]) && IsDigit(FormatNat(n)[0]);
    assert x < 0 ==> FormatInt(x)[1..] == FormatNat(m);
    assert y < 0 ==> FormatInt(y)[1..] == FormatNat(n);
    FormatNatInjective(m, n);
  }

  function BrokerCode(s: string): string {
    var t := TrimSpace(s);
    t[..Find(t, '.')]
  }

  function FinancialKey(date: string, code: string, subject: string, cents: int): string {
    Join([date, BrokerCode(code), subject, FormatInt(cents)])
  }

  function KeyParts(date: string, time: string, code: string, side: string, qty: int, price: string,
                    amount: int): (parts: seq<string>)
    ensures |parts| == 7
  {
    [date, time, code, side, FormatInt(qty), price, FormatInt(amount)]
  }

  function ExecutionKey(date: string, time: string, code: string, side: string, qty: int, price: string,
                        amount: int): string {
    Join(KeyParts(date, time, TrimSpace(code), side, qty, NormalizeDecimal(price), amount))
  }

  // What is matched with what

  const REPO := "通用回购逆回购"

  /** The cash flow a settled row must have caused. */
  function SubjectOf(side: string): Option<string> {
    if side == "买入" then Some("买入成交清算资金")
    else if side == "卖出" then Some("卖出成交清算资金")
    else if side == "融券" then Some("回购融券成交划出资金")
    else if side == "融券购回" then Some("回购融券购回资金划入")
    else if side == "股息税" then Some("红利差别税")
    else if side == "红利" then Some("股票红利划入")
    else None
  }

  predicate Settles(subject: string) {
    subject in {"买入成交清算资金", "卖出成交清算资金", "回购融券成交划出资金", "回购融券购回资金划入", "红利差别税", "股票红利划入"}
  }

  /** How a row moves the position in its security. */
  function DeltaOf(side: string): Option<int> {
    if side == "买入" || side == "送股" || side == "托管转入" || side == "转托转入" then Some(1)
    else if side == "卖出" || side == "转托转出" then Some(-1)
    else None
  }

  predicate Trades(side: string) {
    side == "买入" || side == "卖出" || side == "融券"
  }

  /** Fills call a reverse repurchase by another name. */
  function TradeSide(side: string): string {
    if side == "融券" then REPO else side
  }

  function FlowKey(flow: CashFlow): Option<string> {
    if Settles(flow.subject)
    then Some(FinancialKey(flow.date, flow.code, flow.subject, Wrap(flow.inCents - flow.outCents)))
    else None
  }

  function SettledKey(row: SettlementRow): Option<string> {
    match SubjectOf(row.side)
    case None => None
    case Some(subject) => Some(FinancialKey(row.date, BrokerCode(row.code), subject, row.paid))
  }

  function TradeKey(row: SettlementRow): Option<string> {
    if Trades(row.side)
    then Some(ExecutionKey(row.date, row.time, row.code, TradeSide(row.side), row.qty, row.price, row.amount))
    else None
  }

  function FillKey(f: Fill): Option<string> {
    Some(ExecutionKey(f.date, f.time, f.code, f.side, f.qty, f.price, f.amount))
  }

  /** The keys of the items that have one, in order. */
  function Keys<T>(items: seq<T>, keyOf: T -> Option<string>): seq<string> {
    if items == [] then []
    else
      var key := keyOf(items[|items| - 1]);
      Keys(items[..|items| - 1], keyOf) + (if key.Some? then [key.value] else [])
  }

  function CountedKey(c: Counter<string>, key: Option<string>): Counter<string> {
    if key.Some? then Counted(c, key.value) else c
  }

  lemma CountNext<T>(c: Counter<string>, items: seq<T>, k: nat, keyOf: T -> Option<string>)
    requires k < |items| && Represents(c, multiset(Keys(items[..k], keyOf)))
    ensures Represents(CountedKey(c, keyOf(items[k])), multiset(Keys(items[..k + 1], keyOf)))
  {
    assert items[..k + 1][..k] == items[..k];
    var key := keyOf(items[k]);
    if key.Some? {
      CountedRepresents(c, multiset(Keys(items[..k], keyOf)), key.value);
    }
  }

  method CountKeys<T>(items: seq<T>, keyOf: T -> Option<string>) returns (counter: Counter<string>)
    ensures Represents(counter, multiset(Keys(items, keyOf)))
  {
    counter := map[];
    for k := 0 to |items|
      invariant Represents(counter, multiset(Keys(items[..k], keyOf)))
    {
      CountNext(counter, items, k, keyOf);
      counter := CountedKey(counter, keyOf(items[k]));
    }
    assert items[..|items|] == items;
  }

  /** One pass over the rows fills both counters. */
  method CountRows<T>(rows: seq<T>, settledKey: T -> Option<string>, tradeKey: T -> Option<string>)
    returns (financial: Counter<string>, executions: Counter<string>)
    ensures Represents(financial, multiset(Keys(rows, settledKey)))
    ensures Represents(executions, multiset(Keys(rows, tradeKey)))
  {
    financial, executions := map[], map[];
    for k := 0 to |rows|
      invariant Represents(financial, multiset(Keys(rows[..k], settledKey)))
      invariant Represents(executions, multiset(Keys(rows[..k], tradeKey)))
    {
      CountNext(financial, rows, k, settledKey);
      CountNext(executions, rows, k, tradeKey);
      financial := CountedKey(financial, settledKey(rows[k]));
      executions := CountedKey(executions, tradeKey(rows[k]));
    }
    assert rows[..|rows|] == rows;
  }

  // Positions: the export lists the newest row first

  /** What the rows from i on add up to for one security. */
  function Position(rows: seq<SettlementRow>, i: nat, code: string): int
    requires i <= |rows|
    decreases |rows| - i
  {
    if i == |rows| then 0
    else
      Position(rows, i + 1, code)
      + (if rows[i].code == code && DeltaOf(rows[i].side).Some? then DeltaOf(rows[i].side).value * rows[i].qty else 0)
  }

  /** Does the balance reported on a row agree with all movements up to it? */
  predicate BalanceHolds(rows: seq<SettlementRow>, i: nat)
    requires i < |rows|
  {
    DeltaOf(rows[i].side).Some? ==> Wrap(Position(rows, i, rows[i].code)) == rows[i].balance
  }

  function Mismatches(rows: seq<SettlementRow>, from: nat): set<nat> {
    set i | from <= i < |rows| && !BalanceHolds(rows, i)
  }

  ghost predicate Balances(balances: map<string, int>, rows: seq<SettlementRow>, i: nat)
    requires i <= |rows|
  {
    forall code :: Amount(balances, code) == Wrap(Position(rows, i, code))
  }

  /** What a security's movements leave in the end. */
  function FinalPosition(rows: seq<SettlementRow>, code: string): int {
    Wrap(Position(rows, 0, code))
  }

  ghost predicate NeverShort(rows: seq<SettlementRow>) {
    forall code :: FinalPosition(rows, code) >= 0
  }

  ghost predicate NothingHeld(rows: seq<SettlementRow>) {
    forall code :: FinalPosition(rows, code) <= 0
  }

  method ReplayPositions(rows: seq<SettlementRow>) returns (mismatches: nat, balances: map<string, int>)
    ensures Balances(balances, rows, 0) && mismatches == |Mismatches(rows, 0)|
  {
    mismatches, balances := 0, map[];
    for i := |rows| downto 0
      invariant Balances(balances, rows, i) && mismatches == |Mismatches(rows, i)|
    {
      var row, delta := rows[i], DeltaOf(rows[i].side);
      BalancesNext(balances, rows, i, delta);
      MismatchesNext(rows, i);
      if delta.Some? {
        balances := balances[row.code := Wrap(Amount(balances, row.code) + delta.value * row.qty)];
        assert balances[row.code] == Amount(balances, row.code);
        if balances[row.code] != row.balance {
          mismatches := mismatches + 1;
        }
      }
    }
  }

  method AuditPositions(rows: seq<SettlementRow>) returns (mismatches: nat, negative: nat, positive: nat)
    ensures mismatches == |Mismatches(rows, 0)|
    ensures negative == 0 <==> NeverShort(rows)
    ensures positive == 0 <==> NothingHeld(rows)
  {
    var balances;
    mismatches, balances := ReplayPositions(rows);
    negative := CountValues(balances, v => v < 0);
    positive := CountValues(balances, v => v > 0);
    FinalPositions(balances, rows, v => v < 0);
    FinalPositions(balances, rows, v => v > 0);
    assert forall code :: (v => v < 0)(FinalPosition(rows, code)) <==> !(FinalPosition(rows, code) >= 0);
    assert forall code :: (v => v > 0)(FinalPosition(rows, code)) <==> !(FinalPosition(rows, code) <= 0);
  }

  lemma MismatchesNext(rows: seq<SettlementRow>, i: nat)
    requires i < |rows|
    ensures |Mismatches(rows, i)| == |Mismatches(rows, i + 1)| + (if BalanceHolds(rows, i) then 0 else 1)
  {
    assert Mismatches(rows, i) == if BalanceHolds(rows, i) then Mismatches(rows, i + 1) else Mismatches(rows, i + 1) + {i};
  }

  lemma BalancesNext(balances: map<string, int>, rows: seq<SettlementRow>, i: nat, delta: Option<int>)
    requires i < |rows| && Balances(balances, rows, i + 1) && delta == DeltaOf(rows[i].side)
    ensures var code := rows[i].code;
            Balances(if delta.Some? then balances[code := Wrap(Amount(balances, code) + delta.value * rows[i].qty)] else balances,
                     rows, i)
  {
    var code := rows[i].code;
    if delta.Some? {
      var moved := balances[code := Wrap(Amount(balances, code) + delta.value * rows[i].qty)];
      assert Amount(balances, code) == Wrap(Position(rows, i + 1, code));
      WrapOnce(Position(rows, i + 1, code), delta.value * rows[i].qty);
      forall c ensures Amount(moved, c) == Wrap(Position(rows, i, c)) {
        assert Amount(balances, c) == Wrap(Position(rows, i + 1, c));
      }
    } else {
      forall c ensures Amount(balances, c) == Wrap(Position(rows, i, c)) {
        assert Amount(balances, c) == Wrap(Position(rows, i + 1, c));
      }
    }
  }

  lemma FinalPositions(balances: map<string, int>, rows: seq<SettlementRow>, wanted: int -> bool)
    requires Balances(balances, rows, 0) && !wanted(0)
    ensures |Holding(balances, wanted)| == 0 <==> forall code :: !wanted(FinalPosition(rows, code))
  {
    var found := Holding(balances, wanted);
    if found == {} {
      forall code ensures !wanted(FinalPosition(rows, code)) {
        assert Amount(balances, code) == Wrap(Position(rows, 0, code));
        assert code !in found;
      }
    } else {
      var code :| code in found;
      assert Amount(balances, code) == Wrap(Position(rows, 0, code));
      assert wanted(FinalPosition(rows, code)) && |found| > 0;
    }
  }

  // The two audits

  /** Settled rows and the cash flows they must have caused are the same multiset of keys. */
  ghost predicate FlowsMatch(rows: seq<SettlementRow>, flows: seq<CashFlow>) {
    multiset(Keys(rows, SettledKey)) == multiset(Keys(flows, FlowKey))
  }

  /** Fills and settled trades are the same multiset of keys. */
  ghost predicate FillsMatch(fills: seq<Fill>, rows: seq<SettlementRow>) {
    multiset(Keys(fills, FillKey)) == multiset(Keys(rows, TradeKey))
  }

  ghost predicate Balanced(rows: seq<SettlementRow>) {
    forall i | 0 <= i < |rows| :: BalanceHolds(rows, i)
  }

  lemma NoMismatch(rows: seq<SettlementRow>)
    ensures |Mismatches(rows, 0)| == 0 <==> Balanced(rows)
  {
    var failing := Mismatches(rows, 0);
    if failing == {} {
      forall i | 0 <= i < |rows| ensures BalanceHolds(rows, i) {
        assert i !in failing;
      }
    }
  }

  method AuditSettlement(rows: seq<SettlementRow>, flows: seq<CashFlow>)
    returns (unmatched: nat, mismatches: nat, negative: nat, executions: Counter<string>)
    ensures var settled, paid := multiset(Keys(rows, SettledKey)), multiset(Keys(flows, FlowKey));
            unmatched == |settled - paid| + |paid - settled|
    ensures unmatched == 0 <==> FlowsMatch(rows, flows)
    ensures mismatches == |Mismatches(rows, 0)| && (mismatches == 0 <==> Balanced(rows))
    ensures negative == 0 <==> NeverShort(rows)
    ensures Represents(executions, multiset(Keys(rows, TradeKey)))
  {
    var paid := CountKeys(flows, FlowKey);
    var settled, counter := CountRows(rows, SettledKey, TradeKey);
    unmatched := Unmatched(settled, paid, multiset(Keys(rows, SettledKey)), multiset(Keys(flows, FlowKey)));
    var positive;
    mismatches, negative, positive := AuditPositions(rows);
    NoMismatch(rows);
    executions := counter;
  }

  /** Fills against the execution counter of the settlement. */
  method AuditExecutions(fills: seq<Fill>, settlement: Counter<string>, ghost rows: seq<SettlementRow>)
    returns (unmatched: nat)
    requires Represents(settlement, multiset(Keys(rows, TradeKey)))
    ensures var filled, settled := multiset(Keys(fills, FillKey)), multiset(Keys(rows, TradeKey));
            unmatched == |filled - settled| + |settled - filled|
    ensures unmatched == 0 <==> FillsMatch(fills, rows)
  {
    var executions := CountKeys(fills, FillKey);
    unmatched := Unmatched(executions, settlement, multiset(Keys(fills, FillKey)), multiset(Keys(rows, TradeKey)));
  }
}
