/** The identities a broker statement must satisfy before it is published. */
module BrokerAudit {
  import opened BrokerCounter
  import opened BrokerReturn
  import opened DateOrder
  import opened Int64
  import opened Text
  import opened Wrappers

  predicate FitsInt64(x: int) {
    -INT64_LIMIT <= x < INT64_LIMIT
  }

  // Daily funds

  datatype FundsRow = FundsRow(date: string, cash: int, deposit: int, withdrawal: int, market: int, pnl: int, total: int)

  function DateOf(row: FundsRow): string {
    row.date
  }

  function DaysIn(month: nat, year: nat): nat {
    if month in {4, 6, 9, 11} then 30
    else if month != 2 then 31
    else if year % 4 == 0 && (year % 100 != 0 || year % 400 == 0) then 29
    else 28
  }

  /** `time.Parse("20060102", date)` succeeds. */
  predicate CalendarDate(date: string) {
    |date| == 8 && AllDigits(date) &&
    var year, month, day := DigitsValue(date[..4]), DigitsValue(date[4..6]), DigitsValue(date[6..]);
    1 <= month <= 12 && 1 <= day <= DaysIn(month, year)
  }

  predicate Dated(rows: seq<FundsRow>) {
    forall i | 0 <= i < |rows| :: CalendarDate(rows[i].date)
  }

  predicate Ordered(rows: seq<FundsRow>) {
    Ascending(rows, DateOf)
  }

  predicate DistinctRows(rows: seq<FundsRow>) {
    DistinctDates(rows, DateOf)
  }

  function TotalBefore(rows: seq<FundsRow>, i: nat): int
    requires i <= |rows|
  {
    if i == 0 then 0 else rows[i - 1].total
  }

  /** What deposits, withdrawals and profit of the first n days add up to. */
  function Earned(rows: seq<FundsRow>, n: nat): int
    requires n <= |rows|
  {
    if n == 0 then 0
    else Earned(rows, n - 1) + rows[n - 1].deposit - rows[n - 1].withdrawal + rows[n - 1].pnl
  }

  predicate IdentityHolds(rows: seq<FundsRow>, i: nat)
    requires i < |rows|
  {
    Wrap(TotalBefore(rows, i) + rows[i].deposit - rows[i].withdrawal + rows[i].pnl) == rows[i].total
  }

  /** The days among the first n whose total does not follow from the day before. */
  function IdentityFailures(rows: seq<FundsRow>, n: nat): set<nat>
    requires n <= |rows|
  {
    set i | 0 <= i < n && !IdentityHolds(rows, i)
  }

  /** Refused for a date that is none or repeats; otherwise the rows in date order and how many totals do not follow. */
  method AuditFunds(rows: seq<FundsRow>) returns (r: Option<seq<FundsRow>>, failures: nat)
    ensures r.None? <==> !(Dated(rows) && DistinctRows(rows))
    ensures r.Some? ==> multiset(r.value) == multiset(rows) && Ordered(r.value)
    ensures r.Some? ==> failures == |IdentityFailures(r.value, |r.value|)|
  {
    failures := 0;
    var seen: set<string> := {};
    for k := 0 to |rows|
      invariant Dated(rows[..k]) && DistinctRows(rows[..k])
      invariant forall d :: d in seen <==> exists i :: 0 <= i < k && rows[i].date == d
    {
      if !CalendarDate(rows[k].date) || rows[k].date in seen {
        return None, 0;
      }
      seen := seen + {rows[k].date};
    }
    assert rows[..|rows|] == rows;
    SortedKeeps(rows, DateOf);
    SortedIsAscending(rows, DateOf);
    var sorted := Sorted(rows, DateOf);
    failures := CountIdentityFailures(sorted);
    r := Some(sorted);
  }

  method CountIdentityFailures(rows: seq<FundsRow>) returns (failures: nat)
    ensures failures == |IdentityFailures(rows, |rows|)|
  {
    failures := 0;
    var previous := 0;
    for i := 0 to |rows|
      invariant previous == TotalBefore(rows, i) && failures == |IdentityFailures(rows, i)|
    {
      var row := rows[i];
      WrapOnce(previous + row.deposit, -row.withdrawal);
      WrapOnce(previous + row.deposit - row.withdrawal, row.pnl);
      assert IdentityFailures(rows, i + 1)
          == if IdentityHolds(rows, i) then IdentityFailures(rows, i) else IdentityFailures(rows, i) + {i};
      if Wrap(Wrap(Wrap(previous + row.deposit) - row.withdrawal) + row.pnl) != row.total {
        failures := failures + 1;
      }
      previous := row.total;
    }
  }

  /** Every total is everything deposited, withdrawn and earned so far. */
  predicate FundsConserved(rows: seq<FundsRow>, n: nat)
    requires n <= |rows|
  {
    forall i | 0 <= i < n :: rows[i].total == Wrap(Earned(rows, i + 1))
  }

  /** No failing day means exactly that. */
  lemma {:induction false} NoFailureConserves(rows: seq<FundsRow>, n: nat)
    requires n <= |rows|
    ensures IdentityFailures(rows, n) == {} <==> FundsConserved(rows, n)
    decreases n
  {
    if n > 0 {
      NoFailureConserves(rows, n - 1);
      assert IdentityFailures(rows, n)
          == if IdentityHolds(rows, n - 1) then IdentityFailures(rows, n - 1) else IdentityFailures(rows, n - 1) + {n - 1};
      assert FundsConserved(rows, n)
        <==> FundsConserved(rows, n - 1) && rows[n - 1].total == Wrap(Earned(rows, n));
      var last := rows[n - 1];
      WrapOnce(Earned(rows, n - 1), last.deposit - last.withdrawal + last.pnl);
    }
  }

  // Cash flows

  predicate External(flow: CashFlow) {
    flow.subject == "银证转帐存" || flow.subject == "银证转帐取"
  }

  /** Net inflow of the flows a filter lets through. */
  function Net(flows: seq<CashFlow>, wanted: CashFlow -> bool): int {
    if flows == [] then 0
    else
      var last := flows[|flows| - 1];
      Net(flows[..|flows| - 1], wanted) + (if wanted(last) then last.inCents - last.outCents else 0)
  }

  function NetOn(flows: seq<CashFlow>, date: string, externalOnly: bool): int {
    Net(flows, (f: CashFlow) => f.date == date && (externalOnly ==> External(f)))
  }

  function Dates(rows: seq<FundsRow>, n: nat): set<string>
    requires n <= |rows|
  {
    set i | 0 <= i < n :: rows[i].date
  }

  /** Net inflow of the flows dated on the first n days of the funds statement. */
  function NetWithin(flows: seq<CashFlow>, rows: seq<FundsRow>, n: nat, externalOnly: bool): int
    requires n <= |rows|
  {
    Net(flows, (f: CashFlow) => f.date in Dates(rows, n) && (externalOnly ==> External(f)))
  }

  lemma {:induction false} NetAdds(flows: seq<CashFlow>, p: CashFlow -> bool, q: CashFlow -> bool, r: CashFlow -> bool)
    requires forall f :: r(f) <==> p(f) || q(f)
    requires forall f :: !(p(f) && q(f))
    ensures Net(flows, r) == Net(flows, p) + Net(flows, q)
    decreases |flows|
  {
    if flows != [] {
      NetAdds(flows[..|flows| - 1], p, q, r);
    }
  }

  lemma {:induction false} NetOfNone(flows: seq<CashFlow>, p: CashFlow -> bool)
    requires forall f :: !p(f)
    ensures Net(flows, p) == 0
    decreases |flows|
  {
    if flows != [] {
      NetOfNone(flows[..|flows| - 1], p);
    }
  }

  /** One more day brings in exactly the flows dated on it. */
  lemma NextDay(flows: seq<CashFlow>, rows: seq<FundsRow>, n: nat, externalOnly: bool)
    requires Ordered(rows) && n < |rows|
    ensures NetWithin(flows, rows, n + 1, externalOnly)
         == NetWithin(flows, rows, n, externalOnly) + NetOn(flows, rows[n].date, externalOnly)
    ensures NetWithin(flows, rows, 0, externalOnly) == 0
  {
    BeforeIsIrreflexive(rows[n].date);
    assert rows[n].date !in Dates(rows, n);
    assert Dates(rows, n + 1) == Dates(rows, n) + {rows[n].date};
    NetAdds(flows, (f: CashFlow) => f.date in Dates(rows, n) && (externalOnly ==> External(f)),
            (f: CashFlow) => f.date == rows[n].date && (externalOnly ==> External(f)),
            (f: CashFlow) => f.date in Dates(rows, n + 1) && (externalOnly ==> External(f)));
    NetOfNone(flows, (f: CashFlow) => f.date in Dates(rows, 0) && (externalOnly ==> External(f)));
  }

  function CashBefore(rows: seq<FundsRow>, i: nat): int
    requires i <= |rows|
  {
    if i == 0 then 0 else rows[i - 1].cash
  }

  predicate CashBridgeHolds(rows: seq<FundsRow>, flows: seq<CashFlow>, i: nat)
    requires i < |rows|
  {
    Wrap(rows[i].cash - CashBefore(rows, i)) == Wrap(NetOn(flows, rows[i].date, false))
  }

  predicate TransfersMatch(rows: seq<FundsRow>, flows: seq<CashFlow>, i: nat)
    requires i < |rows|
  {
    Wrap(rows[i].deposit - rows[i].withdrawal) == Wrap(NetOn(flows, rows[i].date, true))
  }

  function CashFailures(rows: seq<FundsRow>, flows: seq<CashFlow>, n: nat): set<nat>
    requires n <= |rows|
  {
    set i | 0 <= i < n && !CashBridgeHolds(rows, flows, i)
  }

  function TransferMismatches(rows: seq<FundsRow>, flows: seq<CashFlow>, n: nat): set<nat>
    requires n <= |rows|
  {
    set i | 0 <= i < n && !TransfersMatch(rows, flows, i)
  }

  function IdsOf(flows: seq<CashFlow>): set<string> {
    set i | 0 <= i < |flows| :: flows[i].id
  }

  ghost predicate Sums(totals: map<string, int>, flows: seq<CashFlow>, externalOnly: bool) {
    forall d :: Amount(totals, d) == Wrap(NetOn(flows, d, externalOnly))
  }

  function Added(totals: map<string, int>, flow: CashFlow): map<string, int> {
    totals[flow.date := Wrap(Amount(totals, flow.date) + Wrap(flow.inCents - flow.outCents))]
  }

  lemma SumsNext(totals: map<string, int>, flows: seq<CashFlow>, k: nat, externalOnly: bool)
    requires k < |flows| && Sums(totals, flows[..k], externalOnly)
    ensures Sums(if externalOnly ==> External(flows[k]) then Added(totals, flows[k]) else totals, flows[..k + 1], externalOnly)
  {
    var flow := flows[k];
    var next := if externalOnly ==> External(flow) then Added(totals, flow) else totals;
    forall d ensures Amount(next, d) == Wrap(NetOn(flows[..k + 1], d, externalOnly)) {
      NetOnNext(flows, k, d, externalOnly);
      RunningSum(NetOn(flows[..k], d, externalOnly), flow.inCents - flow.outCents);
    }
  }

  /** Daily nets, as 64-bit running sums. */
  method SumFlows(flows: seq<CashFlow>)
    returns (dailyNet: map<string, int>, dailyExternal: map<string, int>, ids: set<string>)
    ensures Sums(dailyNet, flows, false) && Sums(dailyExternal, flows, true)
    ensures ids == IdsOf(flows)
  {
    dailyNet, dailyExternal, ids := map[], map[], {};
    for k := 0 to |flows|
      invariant Sums(dailyNet, flows[..k], false) && Sums(dailyExternal, flows[..k], true)
      invariant ids == IdsOf(flows[..k])
    {
      SumsNext(dailyNet, flows, k, false);
      SumsNext(dailyExternal, flows, k, true);
      ids := ids + {flows[k].id};
      dailyNet := Added(dailyNet, flows[k]);
      if External(flows[k]) {
        dailyExternal := Added(dailyExternal, flows[k]);
      }
    }
    assert flows[..|flows|] == flows;
  }

  lemma NetOnNext(flows: seq<CashFlow>, k: nat, d: string, externalOnly: bool)
    requires k < |flows|
    ensures NetOn(flows[..k + 1], d, externalOnly) == NetOn(flows[..k], d, externalOnly)
          + (if flows[k].date == d && (externalOnly ==> External(flows[k])) then flows[k].inCents - flows[k].outCents else 0)
  {
    assert flows[..k + 1][..k] == flows[..k];
  }

  lemma RunningSum(sum: int, x: int)
    ensures Wrap(Wrap(sum) + Wrap(x)) == Wrap(sum + x)
  {
    WrapOnce(sum, Wrap(x));
    WrapOnce(x, sum);
  }

  lemma FailuresNext(rows: seq<FundsRow>, flows: seq<CashFlow>, i: nat)
    requires i < |rows|
    ensures |CashFailures(rows, flows, i + 1)|
         == |CashFailures(rows, flows, i)| + (if CashBridgeHolds(rows, flows, i) then 0 else 1)
    ensures |TransferMismatches(rows, flows, i + 1)|
         == |TransferMismatches(rows, flows, i)| + (if TransfersMatch(rows, flows, i) then 0 else 1)
    ensures CashFailures(rows, flows, i + 1) == {} <==> CashFailures(rows, flows, i) == {} && CashBridgeHolds(rows, flows, i)
  {
    assert CashFailures(rows, flows, i + 1)
        == if CashBridgeHolds(rows, flows, i) then CashFailures(rows, flows, i) else CashFailures(rows, flows, i) + {i};
    assert TransferMismatches(rows, flows, i + 1)
        == if TransfersMatch(rows, flows, i) then TransferMismatches(rows, flows, i)
           else TransferMismatches(rows, flows, i) + {i};
  }

  method AuditCashFlows(flows: seq<CashFlow>, rows: seq<FundsRow>)
    returns (uniqueIds: nat, cashFailures: nat, mismatches: nat)
    ensures uniqueIds == |IdsOf(flows)|
    ensures cashFailures == |CashFailures(rows, flows, |rows|)|
    ensures mismatches == |TransferMismatches(rows, flows, |rows|)|
  {
    var dailyNet, dailyExternal, ids := SumFlows(flows);
    uniqueIds, cashFailures, mismatches := |ids|, 0, 0;
    var previousCash := 0;
    for i := 0 to |rows|
      invariant previousCash == CashBefore(rows, i)
      invariant cashFailures == |CashFailures(rows, flows, i)|
      invariant mismatches == |TransferMismatches(rows, flows, i)|
    {
      var row := rows[i];
      FailuresNext(rows, flows, i);
      if Wrap(row.cash - previousCash) != Amount(dailyNet, row.date) {
        cashFailures := cashFailures + 1;
      }
      if Wrap(row.deposit - row.withdrawal) != Amount(dailyExternal, row.date) {
        mismatches := mismatches + 1;
      }
      previousCash := row.cash;
    }
  }

  predicate CashHolds(rows: seq<FundsRow>, flows: seq<CashFlow>, i: nat)
    requires i < |rows|
  {
    rows[i].cash == Wrap(NetWithin(flows, rows, i + 1, false))
  }

  /** Every cash balance is the sum of all flows dated on the statement's days so far. */
  predicate CashConserved(rows: seq<FundsRow>, flows: seq<CashFlow>, n: nat)
    requires n <= |rows|
  {
    forall i | 0 <= i < n :: CashHolds(rows, flows, i)
  }

  lemma Bridged(cash: int, previous: int, net: int, within: int)
    requires FitsInt64(cash) && previous == Wrap(within)
    ensures Wrap(cash - previous) == Wrap(net) <==> cash == Wrap(within + net)
  {
    WrapOnce(cash - previous, previous);
    WrapOnce(net, previous);
    WrapOnce(within, net);
    if cash == Wrap(within + net) {
      BridgedBack(previous, net, within);
    }
  }

  lemma BridgedBack(previous: int, net: int, within: int)
    requires previous == Wrap(within)
    ensures Wrap(Wrap(within + net) - previous) == Wrap(net)
  {
    WrapOnce(within + net, -previous);
    WrapOnce(-previous, within + net);
    WrapOnce(within, 0);
    WrapOnce(-within, within + net);
    assert within + net - previous == -previous + (within + net) && -within + (within + net) == net;
  }

  /** No failing day means exactly that; flows on other days play no part. */
  lemma {:induction false} NoCashFailureConserves(rows: seq<FundsRow>, flows: seq<CashFlow>, n: nat)
    requires Ordered(rows) && n <= |rows| && forall i | 0 <= i < |rows| :: FitsInt64(rows[i].cash)
    ensures CashFailures(rows, flows, n) == {} <==> CashConserved(rows, flows, n)
    decreases n
  {
    if n > 0 {
      NoCashFailureConserves(rows, flows, n - 1);
      FailuresNext(rows, flows, n - 1);
      ConservedNext(rows, flows, n - 1);
      DayBridged(rows, flows, n - 1);
    }
  }

  lemma ConservedNext(rows: seq<FundsRow>, flows: seq<CashFlow>, n: nat)
    requires n < |rows|
    ensures CashConserved(rows, flows, n + 1) <==> CashConserved(rows, flows, n) && CashHolds(rows, flows, n)
  {
  }

  lemma DayBridged(rows: seq<FundsRow>, flows: seq<CashFlow>, i: nat)
    requires Ordered(rows) && i < |rows| && FitsInt64(rows[i].cash)
    ensures CashConserved(rows, flows, i) ==> (CashBridgeHolds(rows, flows, i) <==> CashHolds(rows, flows, i))
  {
    if CashConserved(rows, flows, i) {
      NextDay(flows, rows, i, false);
      assert i > 0 ==> CashHolds(rows, flows, i - 1);
      Bridged(rows[i].cash, CashBefore(rows, i), NetOn(flows, rows[i].date, false), NetWithin(flows, rows, i, false));
    }
  }

  function Profit(rows: seq<FundsRow>, n: nat): int
    requires n <= |rows|
  {
    if n == 0 then 0 else Profit(rows, n - 1) + rows[n - 1].pnl
  }

  /** When reported deposits and withdrawals match the bank transfers of every day, assets are transfers plus profit. */
  lemma {:induction false} TransfersExplainEarnings(rows: seq<FundsRow>, flows: seq<CashFlow>, n: nat)
    requires Ordered(rows) && n <= |rows| && TransferMismatches(rows, flows, |rows|) == {}
    ensures Wrap(Earned(rows, n)) == Wrap(NetWithin(flows, rows, n, true) + Profit(rows, n))
    decreases n
  {
    if n > 0 {
      var i := n - 1;
      TransfersExplainEarnings(rows, flows, i);
      assert i !in TransferMismatches(rows, flows, |rows|);
      NextDay(flows, rows, i, true);
      Explained(Earned(rows, i), NetWithin(flows, rows, i, true) + Profit(rows, i),
                rows[i].deposit - rows[i].withdrawal, NetOn(flows, rows[i].date, true), rows[i].pnl);
    } else if rows != [] {
      NextDay(flows, rows, 0, true);
    } else {
      NetOfNone(flows, (f: CashFlow) => f.date in Dates(rows, 0) && (true ==> External(f)));
    }
  }

  lemma Explained(x: int, y: int, a: int, b: int, p: int)
    requires Wrap(x) == Wrap(y) && Wrap(a) == Wrap(b)
    ensures Wrap(x + a + p) == Wrap(y + b + p)
  {
    WrapOnce(x, a + p);
    WrapOnce(y, a + p);
    WrapOnce(a, y + p);
    WrapOnce(b, y + p);
    assert x + a + p == x + (a + p) && y + (a + p) == a + (y + p) && y + b + p == b + (y + p);
  }

  predicate DistinctIds(flows: seq<CashFlow>) {
    forall i, j | 0 <= i < j < |flows| :: flows[i].id != flows[j].id
  }

  lemma DistinctNext(flows: seq<CashFlow>, n: nat)
    requires n == |flows| - 1
    ensures DistinctIds(flows) <==> DistinctIds(flows[..n]) && flows[n].id !in IdsOf(flows[..n])
    ensures IdsOf(flows) == IdsOf(flows[..n]) + {flows[n].id}
  {
    forall i | 0 <= i < n ensures flows[..n][i].id in IdsOf(flows[..n]) {}
  }

  /** As many different numbers as flows means that no number repeats. */
  lemma {:induction false} UniqueIds(flows: seq<CashFlow>)
    ensures |IdsOf(flows)| <= |flows|
    ensures |IdsOf(flows)| == |flows| <==> DistinctIds(flows)
    decreases |flows|
  {
    if flows != [] {
      var n := |flows| - 1;
      UniqueIds(flows[..n]);
      DistinctNext(flows, n);
    }
  }
}
