/** A broker statement from its files to the tables: audited, and published if it passes. */
module BrokerStatement {
  import opened BrokerAudit
  import opened BrokerGate
  import opened BrokerPublish
  import opened BrokerReturn
  import opened BrokerSettlement
  import opened DateOrder
  import opened Int64
  import opened Text
  import opened Wrappers

  /** The rows of the five exports, daily funds in date order. */
  datatype Statement = Statement(account: string, days: seq<FundsRow>, flows: seq<CashFlow>, rows: seq<SettlementRow>,
                                 fills: seq<Fill>, fundsHash: string, fundsPath: string)

  /** What has passed the gate. */
  ghost predicate Passed(st: Statement) {
    && st.days != [] && Dated(st.days) && Ordered(st.days)
    && Consistent(st.days, st.flows, st.rows, st.fills)
  }

  // What publication makes of it

  /** The bank transfers of a date, in the order of the file. */
  function TransfersOn(flows: seq<CashFlow>, date: string): seq<CashFlow> {
    if flows == [] then []
    else
      var last := flows[|flows| - 1];
      TransfersOn(flows[..|flows| - 1], date) + (if External(last) && last.date == date then [last] else [])
  }

  function IsoDate(date: string): string {
    if |date| == 8 then date[..4] + "-" + date[4..6] + "-" + date[6..] else date
  }

  lemma IsoDateInjective(d: string, e: string)
    requires |d| == 8 && |e| == 8 && IsoDate(d) == IsoDate(e)
    ensures d == e
  {
    IsoDateKeeps(d);
    IsoDateKeeps(e);
  }

  lemma IsoDateKeeps(date: string)
    requires |date| == 8
    ensures var iso := IsoDate(date); |iso| == 10 && iso[..4] + iso[5..7] + iso[8..] == date
  {
    var iso := IsoDate(date);
    assert iso[..4] == date[..4] && iso[5..7] == date[4..6] && iso[8..] == date[6..];
    assert date == date[..4] + date[4..6] + date[6..];
  }

  function DayOf(row: FundsRow, flows: seq<CashFlow>): Day {
    Day(IsoDate(row.date), row.deposit, row.withdrawal, row.pnl, row.total, TransfersOn(flows, row.date))
  }

  function DaysOf(st: Statement): seq<Day> {
    seq(|st.days|, i requires 0 <= i < |st.days| => DayOf(st.days[i], st.flows))
  }

  function AuditOf(st: Statement, who: string, when: int): Audit {
    Audit(st.account, DaysOf(st), st.fundsHash, st.fundsPath, who, when)
  }

  /** Dates that differ in the file differ in the tables. */
  lemma DaysAreDistinct(st: Statement)
    requires Dated(st.days) && Ordered(st.days)
    ensures DistinctDays(DaysOf(st))
  {
    forall i, j | 0 <= i < j < |st.days| ensures DaysOf(st)[i].date != DaysOf(st)[j].date {
      BeforeIsIrreflexive(st.days[i].date);
      if IsoDate(st.days[i].date) == IsoDate(st.days[j].date) {
        IsoDateInjective(st.days[i].date, st.days[j].date);
        assert Before(st.days[i].date, st.days[j].date);
      }
    }
  }

  // The flows of a day

  /** What a day's capital base is told of its flows, all weights aside. */
  function Moved(details: seq<Detail>): int {
    if details == [] then 0 else Moved(details[..|details| - 1]) + details[|details| - 1].cents
  }

  function MovedOn(flows: seq<CashFlow>, date: string): int {
    Moved(Details(TransfersOn(flows, date), FlowWeight))
  }

  lemma {:induction false} TransfersMove(flows: seq<CashFlow>, date: string)
    ensures Wrap(MovedOn(flows, date)) == Wrap(NetOn(flows, date, true))
    decreases |flows|
  {
    if flows != [] {
      var n := |flows| - 1;
      TransfersMove(flows[..n], date);
      MovedOnNext(flows, date);
      NetOnNext(flows, n, date, true);
      assert flows[..n + 1] == flows;
      SumsWrapAlike(MovedOn(flows[..n], date), NetOn(flows[..n], date, true), flows[n].inCents - flows[n].outCents);
    }
  }

  lemma MovedOnNext(flows: seq<CashFlow>, date: string)
    requires flows != []
    ensures var n := |flows| - 1;
            MovedOn(flows, date) == MovedOn(flows[..n], date)
              + (if External(flows[n]) && flows[n].date == date then Wrap(flows[n].inCents - flows[n].outCents) else 0)
  {
    var n := |flows| - 1;
    var before := TransfersOn(flows[..n], date);
    if External(flows[n]) && flows[n].date == date {
      MovedNext(before, flows[n]);
    } else {
      assert TransfersOn(flows, date) == before + [] == before;
    }
  }

  lemma MovedNext(flows: seq<CashFlow>, flow: CashFlow)
    ensures Moved(Details(flows + [flow], FlowWeight))
         == Moved(Details(flows, FlowWeight)) + Wrap(flow.inCents - flow.outCents)
  {
    var next := Details(flows + [flow], FlowWeight);
    assert next[..|next| - 1] == Details(flows, FlowWeight);
    assert next[|next| - 1] == DetailOf(flow, FlowWeight);
  }

  lemma SumsWrapAlike(x: int, y: int, z: int)
    requires Wrap(x) == Wrap(y)
    ensures Wrap(x + Wrap(z)) == Wrap(y + z)
  {
    WrapOnce(z, x);
    WrapOnce(x, z);
    WrapOnce(y, z);
    assert x + Wrap(z) == Wrap(z) + x && z + x == x + z;
  }

  lemma DayIsConsistent(st: Statement, i: nat)
    requires Passed(st) && i < |st.days|
    ensures IdentityHolds(st.days, i) && TransfersMatch(st.days, st.flows, i)
  {
    NoFailureConserves(st.days, |st.days|);
    assert i !in IdentityFailures(st.days, |st.days|);
  }

  /** The flows of a day's capital base are its external flow, and opening, flow and profit make up the close. */
  predicate DayAddsUp(day: Day, previous: int) {
    && Wrap(Moved(Details(ReturnFlows(previous, day), FlowWeight))) == ExternalNet(previous, day)
    && (previous > 0 ==> Wrap(OpenNav(previous, day) + ExternalNet(previous, day) + day.pnl) == day.total)
  }

  lemma RowAddsUp(row: FundsRow, flows: seq<CashFlow>, previous: int)
    requires Wrap(previous + row.deposit - row.withdrawal + row.pnl) == row.total
    requires Wrap(row.deposit - row.withdrawal) == Wrap(NetOn(flows, row.date, true))
    ensures DayAddsUp(DayOf(row, flows), previous)
  {
    if previous > 0 {
      TransfersMove(flows, row.date);
      DayCloses(previous, row.deposit - row.withdrawal, row.pnl, row.total);
    } else {
      assert Details([], FlowWeight) == [];
    }
  }

  lemma DayCloses(previous: int, net: int, pnl: int, total: int)
    requires Wrap(previous + net + pnl) == total
    ensures Wrap(previous + Wrap(net) + pnl) == total
  {
    WrapOnce(net, previous + pnl);
    assert previous + net + pnl == net + (previous + pnl) && previous + Wrap(net) + pnl == Wrap(net) + (previous + pnl);
  }

  /** On every day of a statement that passes, the flows that enter the capital base add up to the external flow that
      is published beside it, and the day closes on opening plus that flow plus profit. */
  lemma PublishedFlowsAddUp(st: Statement, i: nat)
    requires Passed(st) && i < |st.days|
    ensures DayAddsUp(DaysOf(st)[i], PreviousTotal(DaysOf(st), i))
  {
    DayIsConsistent(st, i);
    RowAddsUp(st.days[i], st.flows, TotalBefore(st.days, i));
    assert PreviousTotal(DaysOf(st), i) == TotalBefore(st.days, i);
  }

  // Publishing twice

  /** Publishing a statement that passes a second time, confirmed by anyone at any time, always succeeds, never touches
      the gold table, and leaves the NAV table alone exactly when the running value stays positive. */
  lemma StatementTwice(st: Statement, who: string, when: int, who': string, when': int, gold: GoldTable, navs: NavTable)
    requires Passed(st) && Sound(navs)
    requires Publish(st.account, gold, navs, Plan(AuditOf(st, who, when))).Published?
    ensures var first := Publish(st.account, gold, navs, Plan(AuditOf(st, who, when)));
            var second := Publish(st.account, first.gold, first.navs, Plan(AuditOf(st, who', when')));
            && second.Published? && second.gold == first.gold
            && (second.navs == first.navs <==> StaysPositive(DaysOf(st)))
            && (second.saved == 0 <==> StaysPositive(DaysOf(st)))
  {
    DaysAreDistinct(st);
    PublishTwice(AuditOf(st, who, when), who', when', gold, navs);
  }

  // A statement that loses its whole base

  function September(day: char): string {
    "2026090" + [day]
  }

  function WipedOutDays(): seq<FundsRow> {
    [FundsRow(September('1'), 0, 0, 0, 0, 0, 0), FundsRow(September('2'), 10000, 10000, 0, 0, 0, 10000),
     FundsRow(September('3'), 6000, 12000, 0, 0, -16000, 6000)]
  }

  function WipedOutFlows(): seq<CashFlow> {
    [CashFlow(September('2'), "09:00:00", "1", "", "银证转帐存", 10000, 0),
     CashFlow(September('3'), "", "2", "", "银证转帐存", 12000, 0),
     CashFlow(September('3'), "10:00:00", "3", "600000", "买入成交清算资金", 0, 16000)]
  }

  function WipedOutRows(): seq<SettlementRow> {
    [SettlementRow(September('3'), "10:00:00", "600000", "买入", 100, "1.60", 16000, -16000, 100)]
  }

  function WipedOutFills(): seq<Fill> {
    [Fill(September('3'), "10:00:00", "600000", "买入", 100, "1.60", 16000, "1")]
  }

  /** A transfer opens the account; a second one, of unknown time, pays for shares that are worthless by the close. */
  function WipedOut(): Statement {
    Statement("A", WipedOutDays(), WipedOutFlows(), WipedOutRows(), WipedOutFills(), "sha", "funds.csv")
  }

  lemma {:induction false} BeforeByLast(prefix: string, c: char, d: char)
    requires c < d
    ensures Before(prefix + [c], prefix + [d])
  {
    if prefix != [] {
      BeforeByLast(prefix[1..], c, d);
      assert (prefix + [c])[1..] == prefix[1..] + [c] && (prefix + [d])[1..] == prefix[1..] + [d];
    }
  }

  lemma SeptemberDay(day: char)
    requires '1' <= day <= '9'
    ensures CalendarDate(September(day))
  {
    var date := September(day);
    assert date[..4] == "2026" && date[4..6] == "09" && date[6..] == ['0', day];
    assert DigitsValue("0") == 0 && "09"[..1] == "0" && ['0', day][..1] == "0";
  }

  lemma SeptemberOrder(c: char, d: char)
    ensures c < d ==> Before(September(c), September(d))
    ensures c != d ==> September(c) != September(d)
  {
    if c < d {
      BeforeByLast("2026090", c, d);
    }
    assert September(c)[7] == c && September(d)[7] == d;
  }

  lemma DaysInOrder(x: FundsRow, y: FundsRow, z: FundsRow)
    requires CalendarDate(x.date) && CalendarDate(y.date) && CalendarDate(z.date)
    requires Before(x.date, y.date) && Before(x.date, z.date) && Before(y.date, z.date)
    ensures Dated([x, y, z]) && Ordered([x, y, z])
  {
  }

  lemma WipedOutIsDated()
    ensures Dated(WipedOutDays()) && Ordered(WipedOutDays())
  {
    var days := WipedOutDays();
    SeptemberOrder('1', '2');
    SeptemberOrder('1', '3');
    SeptemberOrder('2', '3');
    SeptemberDay('1');
    SeptemberDay('2');
    SeptemberDay('3');
    DaysInOrder(days[0], days[1], days[2]);
  }

  lemma WipedOutNets(date: string, externalOnly: bool)
    ensures NetOn(WipedOutFlows(), date, externalOnly)
         == (if date == September('2') then 10000
             else if date == September('3') then (if externalOnly then 12000 else -4000) else 0)
  {
    var flows := WipedOutFlows();
    SeptemberOrder('2', '3');
    assert flows[..3] == flows;
    NetOnNext(flows, 0, date, externalOnly);
    NetOnNext(flows, 1, date, externalOnly);
    NetOnNext(flows, 2, date, externalOnly);
  }

  lemma WipedOutDay(i: nat)
    requires i < 3
    ensures var days, flows := WipedOutDays(), WipedOutFlows();
            IdentityHolds(days, i) && CashBridgeHolds(days, flows, i) && TransfersMatch(days, flows, i)
  {
    SeptemberOrder('1', '2');
    SeptemberOrder('1', '3');
    SeptemberOrder('2', '3');
    WipedOutNets(WipedOutDays()[i].date, false);
    WipedOutNets(WipedOutDays()[i].date, true);
  }

  lemma BridgesAgree(days: seq<FundsRow>, flows: seq<CashFlow>)
    requires Ordered(days) && DistinctIds(flows) && forall i | 0 <= i < |days| :: FitsInt64(days[i].cash)
    requires forall i | 0 <= i < |days| ::
               IdentityHolds(days, i) && CashBridgeHolds(days, flows, i) && TransfersMatch(days, flows, i)
    ensures MoneyAgrees(days, flows)
  {
    assert IdentityFailures(days, |days|) == {} && CashFailures(days, flows, |days|) == {};
    NoFailureConserves(days, |days|);
    NoCashFailureConserves(days, flows, |days|);
  }

  lemma WipedOutMoneyAgrees()
    ensures MoneyAgrees(WipedOutDays(), WipedOutFlows())
  {
    WipedOutIsDated();
    forall i | 0 <= i < 3
      ensures var days, flows := WipedOutDays(), WipedOutFlows();
              IdentityHolds(days, i) && CashBridgeHolds(days, flows, i) && TransfersMatch(days, flows, i)
    {
      WipedOutDay(i);
    }
    BridgesAgree(WipedOutDays(), WipedOutFlows());
  }

  lemma PlainCode()
    ensures BrokerCode("600000") == "600000"
  {
    TrimSpaceKeeps("600000");
    assert Find("600000", '.') == 6;
  }

  lemma WipedOutKeys()
    ensures FlowKey(WipedOutFlows()[0]).None? && FlowKey(WipedOutFlows()[1]).None?
    ensures FlowKey(WipedOutFlows()[2]).Some? && FlowKey(WipedOutFlows()[2]) == SettledKey(WipedOutRows()[0])
  {
    PlainCode();
  }

  lemma WipedOutFlowsMatch()
    ensures FlowsMatch(WipedOutRows(), WipedOutFlows())
  {
    var flows, rows := WipedOutFlows(), WipedOutRows();
    WipedOutKeys();
    LastKey(flows, FlowKey);
    LastKey(flows[..2], FlowKey);
    LastKey(flows[..1], FlowKey);
    LastKey(rows, SettledKey);
    assert flows[..2][..1] == flows[..1] && flows[..1][..0] == [] && rows[..0] == [];
  }

  lemma LastKey<T>(items: seq<T>, keyOf: T -> Option<string>)
    requires items != []
    ensures var n := |items| - 1;
            Keys(items, keyOf) == Keys(items[..n], keyOf) + (if keyOf(items[n]).Some? then [keyOf(items[n]).value] else [])
    ensures Keys([], keyOf) == []
  {
  }

  lemma WipedOutFillsMatch()
    ensures FillsMatch(WipedOutFills(), WipedOutRows())
  {
    var fills, rows := WipedOutFills(), WipedOutRows();
    assert FillKey(fills[0]) == TradeKey(rows[0]);
    LastKey(fills, FillKey);
    LastKey(rows, TradeKey);
    assert rows[..0] == [] && fills[..0] == [];
  }

  lemma WipedOutPositions()
    ensures Balanced(WipedOutRows()) && NeverShort(WipedOutRows())
  {
    var rows := WipedOutRows();
    forall code ensures Position(rows, 0, code) == if code == "600000" then 100 else 0 {
      assert Position(rows, 1, code) == 0;
    }
  }

  lemma PartsPass(st: Statement)
    requires st.days != [] && Dated(st.days) && Ordered(st.days) && ZeroAnchor(st.days[0])
    requires MoneyAgrees(st.days, st.flows) && FlowsMatch(st.rows, st.flows) && FillsMatch(st.fills, st.rows)
    requires Balanced(st.rows) && NeverShort(st.rows)
    ensures Passed(st)
  {
  }

  /** The statement passes the gate. */
  lemma WipedOutPasses()
    ensures Passed(WipedOut())
  {
    WipedOutIsDated();
    WipedOutMoneyAgrees();
    WipedOutFlowsMatch();
    WipedOutFillsMatch();
    WipedOutPositions();
    PartsPass(WipedOut());
  }

  lemma WipedOutTransfers()
    ensures TransfersOn(WipedOutFlows(), September('3')) == [WipedOutFlows()[1]]
  {
    var flows := WipedOutFlows();
    SeptemberOrder('2', '3');
    assert flows[..2][..1] == flows[..1] && flows[..1][..0] == [];
    assert TransfersOn(flows[..1], September('3')) == [];
    assert TransfersOn(flows[..2], September('3')) == [flows[1]];
  }

  lemma WipedOutBase()
    ensures Base(10000, DaysOf(WipedOut())[2]) == 160.0
  {
    var d := Detail("2", 12000, 0.5);
    WipedOutTransfers();
    assert FlowWeight("") == 0.5;
    assert Details([WipedOutFlows()[1]], FlowWeight) == [d];
    assert [d][..0] == [] && Weighted(10000, [d]) == 16000.0;
    RoundOfWhole(160000000);
  }

  lemma WipedOutIsAcceptable(i: nat)
    requires i < 3
    ensures Acceptable(DaysOf(WipedOut()), i)
  {
  }

  lemma WipedOutReturns()
    ensures ReturnOn(DaysOf(WipedOut()), 1) == 0.0 && ReturnOn(DaysOf(WipedOut()), 2) == -1.0
  {
    NoProfitNoReturn(Base(PreviousTotal(DaysOf(WipedOut()), 1), DaysOf(WipedOut())[1]));
    WipedOutBase();
    assert DailyReturn(-16000, 160.0) == -1.0;
  }

  lemma NoProfitNoReturn(base: real)
    ensures DailyReturn(0, base) == 0.0
  {
  }

  lemma GrownByNothingOrToNothing()
    ensures Grown(1.0, 0.0) == 1.0 && Grown(1.0, -1.0) == 0.0
  {
    RoundOfWhole(1000000000000);
    RoundOfWhole(0);
  }

  lemma WipedOutCumulative()
    ensures Cumulative(DaysOf(WipedOut()), 3) == 0.0
  {
    var days := DaysOf(WipedOut());
    WipedOutReturns();
    GrownByNothingOrToNothing();
    assert Cumulative(days, 1) == 1.0;
    assert Cumulative(days, 2) == Grown(Cumulative(days, 1), ReturnOn(days, 1));
  }

  lemma WipedOutPublishes(who: string, when: int)
    ensures Publish("A", [], [], Plan(AuditOf(WipedOut(), who, when))).Published?
  {
    forall i | 0 <= i < 3 ensures Acceptable(DaysOf(WipedOut()), i) {
      WipedOutIsAcceptable(i);
    }
    AcceptableDaysArePublished(AuditOf(WipedOut(), who, when), [], []);
  }

  lemma WipedOutStaysNotPositive()
    ensures !StaysPositive(DaysOf(WipedOut()))
  {
    WipedOutCumulative();
    assert DaysOf(WipedOut())[2].total > 0 && Cumulative(DaysOf(WipedOut()), 2 + 1) == 0.0;
  }

  /** It passes the gate and is published; any later publication of it succeeds and rewrites a NAV row. */
  lemma SecondRunRewrites(who: string, when: int, who': string, when': int)
    ensures Passed(WipedOut())
    ensures var first := Publish("A", [], [], Plan(AuditOf(WipedOut(), who, when)));
            && first.Published?
            && var second := Publish("A", first.gold, first.navs, Plan(AuditOf(WipedOut(), who', when')));
               second.Published? && second.navs != first.navs
  {
    WipedOutPasses();
    WipedOutPublishes(who, when);
    WipedOutStaysNotPositive();
    StatementTwice(WipedOut(), who, when, who', when', [], []);
  }

  // The command

  function FlowsAt(external: map<string, seq<CashFlow>>, date: string): seq<CashFlow> {
    if date in external then external[date] else []
  }

  /** The map of bank transfers by date. */
  method GroupTransfers(flows: seq<CashFlow>) returns (external: map<string, seq<CashFlow>>)
    ensures forall d :: FlowsAt(external, d) == TransfersOn(flows, d)
  {
    external := map[];
    for k := 0 to |flows|
      invariant forall d :: FlowsAt(external, d) == TransfersOn(flows[..k], d)
    {
      var flow := flows[k];
      assert flows[..k + 1][..k] == flows[..k];
      if External(flow) {
        external := external[flow.date := FlowsAt(external, flow.date) + [flow]];
      }
    }
    assert flows[..|flows|] == flows;
  }

  /** The statement with its daily rows in date order. */
  function InOrder(st: Statement): Statement {
    st.(days := Sorted(st.days, DateOf))
  }

  lemma DatedInOrder(st: Statement)
    ensures Dated(InOrder(st).days) <==> Dated(st.days)
    ensures st.days != [] <==> InOrder(st).days != []
  {
    var days, sorted := st.days, InOrder(st).days;
    SortedHolds(days, sorted, DateOf);
    SortedKeeps(days, DateOf);
    assert |multiset(days)| == |multiset(sorted)|;
    assert Dated(sorted) <==> forall row | row in sorted :: CalendarDate(row.date);
    assert Dated(days) <==> forall row | row in days :: CalendarDate(row.date);
  }

  /** What the gate says of the files is what it means for the statement in date order. */
  lemma GateMeans(st: Statement, days: Option<seq<FundsRow>>, passed: bool)
    requires st.days != []
    requires days.None? <==> !(Dated(st.days) && DistinctRows(st.days))
    requires days.Some? ==> multiset(days.value) == multiset(st.days) && Ordered(days.value) && days.value != []
    requires passed <==> days.Some? && Consistent(days.value, st.flows, st.rows, st.fills)
    ensures passed <==> Passed(InOrder(st))
    ensures passed ==> days.value == InOrder(st).days
  {
    DatedInOrder(st);
    if days.Some? {
      SortedKeeps(st.days, DateOf);
      SortedIsAscending(st.days, DateOf);
      AscendingIsUnique(days.value, InOrder(st).days, DateOf);
    } else if Ordered(InOrder(st).days) {
      AscendingMeansDistinct(st.days, DateOf);
    }
  }

  /** Publishes a statement that has passed, in one transaction. */
  method PublishPassed(store: PerformanceStore, st: Statement, who: string, when: int) returns (ok: bool)
    modifies store
    ensures var o := Publish(st.account, old(store.gold), old(store.navs), Plan(AuditOf(st, who, when)));
            if ok then o.Published? && store.gold == o.gold && store.navs == o.navs
            else o.Refused? && store.gold == old(store.gold) && store.navs == old(store.navs)
  {
    var external := GroupTransfers(st.flows);
    var audit := Audit(st.account,
                       seq(|st.days|, i requires 0 <= i < |st.days| =>
                         Day(IsoDate(st.days[i].date), st.days[i].deposit, st.days[i].withdrawal, st.days[i].pnl,
                             st.days[i].total, FlowsAt(external, st.days[i].date))),
                       st.fundsHash, st.fundsPath, who, when);
    assert audit.days == DaysOf(st);
    var goldSaved, navsSaved, navsKept;
    ok, goldSaved, navsSaved, navsKept := store.PersistAudit(audit);
  }

  /** Audits the files and publishes them exactly if they pass and no day is refused; otherwise nothing is written. */
  method Run(store: PerformanceStore, st: Statement, who: string, when: int) returns (passed: bool, ok: bool)
    requires st.days != [] && forall i | 0 <= i < |st.days| :: FitsInt64(st.days[i].cash)
    modifies store
    ensures passed <==> Passed(InOrder(st))
    ensures var o := Publish(st.account, old(store.gold), old(store.navs), Plan(AuditOf(InOrder(st), who, when)));
            && (ok <==> passed && o.Published?)
            && if ok then store.gold == o.gold && store.navs == o.navs
               else store.gold == old(store.gold) && store.navs == old(store.navs)
  {
    var sorted;
    sorted, passed := AuditStatement(st.days, st.flows, st.rows, st.fills);
    GateMeans(st, sorted, passed);
    if !passed {
      return false, false;
    }
    ok := PublishPassed(store, st.(days := sorted.value), who, when);
  }
}
