/** Publishing an audited broker statement into the two version tables. */
module BrokerPublish {
  import opened BrokerReturn
  import opened Int64
  import opened VersionTable
  import opened Wrappers

  // Stored precision

  /** `NUMERIC(20, 6)`, and the rounding of gold amounts. */
  function Round6(x: real): real {
    Round(x * 1000000.0) as real / 1000000.0
  }

  /** `NUMERIC(24, 12)`, and the rounding of ratios. */
  function Round12(x: real): real {
    Round(x * 1000000000000.0) as real / 1000000000000.0
  }

  lemma RoundOfWhole(n: int)
    ensures Round(n as real) == n
  {
    assert (n as real + 0.5).Floor == n && (-(n as real) + 0.5).Floor == -n;
  }

  lemma RoundsOnce(x: real)
    ensures Round6(Round6(x)) == Round6(x) && Round12(Round12(x)) == Round12(x)
  {
    RoundOfWhole(Round(x * 1000000.0));
    RoundOfWhole(Round(x * 1000000000000.0));
  }

  function Cents(n: int): real {
    n as real / 100.0
  }

  lemma CentsAreExact(n: int)
    ensures Round6(Cents(n)) == Cents(n)
  {
    assert Cents(n) * 1000000.0 == (n * 10000) as real;
    RoundOfWhole(n * 10000);
  }

  // Gold records

  datatype Gold = Gold(carried: real, observed: real, overnight: real, close: real, pnl: real,
                       sourceRef: string, confirmedBy: string, confirmedAt: int)

  /** The amounts of a gold record, rounded; negative assets are refused. */
  function PrepareGold(carried: real, close: real, pnl: real, sourceRef: string, confirmedBy: string, at: int): Option<Gold> {
    var c, e, p := Round6(carried), Round6(close), Round6(pnl);
    var observed := e - p;
    var g := Gold(c, Round6(observed), Round6(observed - c), e, p, sourceRef, confirmedBy, at);
    if g.carried < 0.0 || g.close < 0.0 || g.observed < 0.0 then None else Some(g)
  }

  /** An accepted record balances exactly: carried plus the overnight adjustment opens the day, plus profit closes it. */
  lemma GoldBalances(carried: real, close: real, pnl: real, sourceRef: string, confirmedBy: string, at: int)
    ensures var g := PrepareGold(carried, close, pnl, sourceRef, confirmedBy, at);
            g.Some? ==> g.value.carried + g.value.overnight + g.value.pnl == g.value.close
                        && g.value.observed == g.value.close - g.value.pnl
  {
    var c, e, p := Round(carried * 1000000.0), Round(close * 1000000.0), Round(pnl * 1000000.0);
    assert (Round6(close) - Round6(pnl)) * 1000000.0 == (e - p) as real;
    assert (Round6(close) - Round6(pnl) - Round6(carried)) * 1000000.0 == (e - p - c) as real;
    RoundOfWhole(e - p);
    RoundOfWhole(e - p - c);
  }

  /** The fields under the content hash, which is taken to tell different contents apart. */
  function Content(g: Gold): (real, real, real, string) {
    (g.carried, g.close, g.pnl, g.sourceRef)
  }

  // NAV rows

  datatype Nav = Nav(formula: string, source: string, open: real, externalNet: real, pnl: real, close: real,
                     denominator: real, dailyReturn: real, cumulative: real, fundsHash: Option<string>, finalizedAt: int)

  const FORMULA := "broker_statement_nav.v1"
  const SOURCE := "broker.historical_statement.one_time_audit"

  /** Validation, then the rounding of the columns. */
  function StoredNav(nav: Nav): Option<Nav> {
    if nav.open <= 0.0 || nav.close <= 0.0 || nav.denominator < 0.0 then None
    else Some(nav.(open := Round6(nav.open), externalNet := Round6(nav.externalNet), pnl := Round6(nav.pnl),
                   close := Round6(nav.close), denominator := Round6(nav.denominator),
                   dailyReturn := Round12(nav.dailyReturn),
                   cumulative := if nav.cumulative <= 0.0 then 1.0 else Round12(nav.cumulative)))
  }

  predicate Near(x: real, y: real, tolerance: real) {
    -tolerance < x - y < tolerance
  }

  predicate Unchanged(existing: Nav, next: Nav) {
    && existing.formula == FORMULA && existing.source == SOURCE
    && existing.fundsHash == next.fundsHash
    && Near(existing.open, next.open, 0.000001)
    && Near(existing.externalNet, next.externalNet, 0.000001)
    && Near(existing.close, next.close, 0.000001)
    && Near(existing.pnl, next.pnl, 0.000001)
    && Near(existing.denominator, next.denominator, 0.000001)
    && Near(existing.dailyReturn, next.dailyReturn, 0.000000000001)
    && Near(existing.cumulative, next.cumulative, 0.000000000001)
  }

  // The rows of one statement

  datatype Day = Day(date: string, deposit: int, withdrawal: int, pnl: int, total: int, flows: seq<CashFlow>)

  datatype Audit = Audit(account: string, days: seq<Day>, fundsHash: string, fundsPath: string,
                         confirmedBy: string, confirmedAt: int)

  /** One day of the statement as it is to be written: nothing for a day whose amounts are refused. */
  datatype Item = Item(date: string, gold: Option<Gold>, nav: Option<Nav>)

  function PreviousTotal(days: seq<Day>, n: nat): int
    requires n <= |days|
  {
    if n == 0 then 0 else days[n - 1].total
  }

  /** Opening capital, external flow and weighted flows of a day; an inception day opens on its own capital. */
  function OpenNav(previousTotal: int, day: Day): int {
    if previousTotal <= 0 then Wrap(day.total - day.pnl) else previousTotal
  }

  function ExternalNet(previousTotal: int, day: Day): int {
    if previousTotal <= 0 then 0 else Wrap(day.deposit - day.withdrawal)
  }

  function ReturnFlows(previousTotal: int, day: Day): seq<CashFlow> {
    if previousTotal <= 0 then [] else day.flows
  }

  function DailyReturn(pnl: int, denominator: real): real {
    if denominator > 0.0 then Cents(pnl) / denominator else 0.0
  }

  /** The running value after a day's return. */
  function Grown(before: real, dailyReturn: real): real {
    Round12(before * (1.0 + dailyReturn))
  }

  function NavFor(previousTotal: int, day: Day, denominator: real, dailyReturn: real, cumulative: real,
                  fundsHash: string, at: int): Nav {
    Nav(FORMULA, SOURCE, Cents(OpenNav(previousTotal, day)), Cents(ExternalNet(previousTotal, day)), Cents(day.pnl),
        Cents(day.total), denominator, dailyReturn, cumulative, Some(fundsHash), at)
  }

  function Base(previousTotal: int, day: Day): real {
    Denominator(OpenNav(previousTotal, day), Details(ReturnFlows(previousTotal, day), FlowWeight))
  }

  function ReturnOn(days: seq<Day>, i: nat): real
    requires i < |days|
  {
    DailyReturn(days[i].pnl, Base(PreviousTotal(days, i), days[i]))
  }

  /** The running net value after the first n days; a day without assets leaves it alone. */
  function Cumulative(days: seq<Day>, n: nat): real
    requires n <= |days|
  {
    if n == 0 then 1.0
    else if days[n - 1].total <= 0 then Cumulative(days, n - 1)
    else Grown(Cumulative(days, n - 1), ReturnOn(days, n - 1))
  }

  function ItemOf(a: Audit, i: nat): Item
    requires i < |a.days|
  {
    var day, previous := a.days[i], PreviousTotal(a.days, i);
    Item(day.date,
         PrepareGold(Cents(previous), Cents(day.total), Cents(day.pnl), a.fundsPath, a.confirmedBy, a.confirmedAt),
         if day.total <= 0 then None
         else Some(NavFor(previous, day, Base(previous, day), Round12(ReturnOn(a.days, i)), Cumulative(a.days, i + 1),
                          a.fundsHash, a.confirmedAt)))
  }

  function Plan(a: Audit): seq<Item> {
    seq(|a.days|, i requires 0 <= i < |a.days| => ItemOf(a, i))
  }

  // Writing a plan

  datatype Key = Key(account: string, date: string)

  type GoldTable = seq<Row<Key, Gold>>
  type NavTable = seq<Row<Key, Nav>>

  /** The gold upsert: a current row with the same content stays as it is. */
  function SaveGold(rows: GoldTable, k: Key, g: Gold): GoldTable {
    var existing := InForce(rows, k);
    if existing.Some? && Content(existing.value) == Content(g) then rows else Apply(rows, Insert(k, 0, g))
  }

  predicate Kept(navs: NavTable, k: Key, nav: Nav) {
    InForce(navs, k).Some? && Unchanged(InForce(navs, k).value, nav)
  }

  datatype Outcome = Published(gold: GoldTable, navs: NavTable, saved: nat, kept: nat) | Refused

  /** One day; what was in force before the run decides whether its NAV row is written. */
  function PublishItem(account: string, before: NavTable, o: Outcome, item: Item): Outcome
    requires o.Published?
  {
    var k := Key(account, item.date);
    if item.gold.None? then Refused
    else
      var gold := SaveGold(o.gold, k, item.gold.value);
      if item.nav.None? then o.(gold := gold)
      else if Kept(before, k, item.nav.value) then o.(gold := gold, kept := o.kept + 1)
      else
        var row := StoredNav(item.nav.value);
        if row.None? then Refused
        else o.(gold := gold, navs := Apply(o.navs, Insert(k, 0, row.value)), saved := o.saved + 1)
  }

  function Publish(account: string, gold: GoldTable, navs: NavTable, items: seq<Item>): Outcome {
    if items == [] then Published(gold, navs, 0, 0)
    else
      var o := Publish(account, gold, navs, items[..|items| - 1]);
      if o.Refused? then Refused else PublishItem(account, navs, o, items[|items| - 1])
  }

  // The first run

  predicate DistinctDates(items: seq<Item>) {
    forall i, j | 0 <= i < j < |items| :: items[i].date != items[j].date
  }

  /** Gold as the item says, and the NAV row in force as the item says unless an equal one already was. */
  ghost predicate Settled(account: string, navs: NavTable, o: Outcome, item: Item)
    requires o.Published?
  {
    var k := Key(account, item.date);
    && item.gold.Some? && InForce(o.gold, k).Some? && Content(InForce(o.gold, k).value) == Content(item.gold.value)
    && (item.nav.Some? ==>
          if Kept(navs, k, item.nav.value) then InForce(o.navs, k) == InForce(navs, k)
          else StoredNav(item.nav.value).Some? && InForce(o.navs, k) == StoredNav(item.nav.value))
  }

  lemma {:induction false} PublishSettles(account: string, gold: GoldTable, navs: NavTable, items: seq<Item>)
    requires DistinctDates(items)
    ensures var o := Publish(account, gold, navs, items);
            o.Published? ==>
              && (forall i | 0 <= i < |items| :: Settled(account, navs, o, items[i]))
              && forall k: Key | forall i | 0 <= i < |items| :: k != Key(account, items[i].date) ::
                   InForce(o.navs, k) == InForce(navs, k)
    decreases |items|
  {
    var o := Publish(account, gold, navs, items);
    if items != [] && o.Published? {
      var n := |items| - 1;
      var before, item := Publish(account, gold, navs, items[..n]), items[n];
      PublishSettles(account, gold, navs, items[..n]);
      var k := Key(account, item.date);
      assert InForce(before.navs, k) == InForce(navs, k);
      ItemSettles(account, navs, before, item);
      forall j: Key | j != k ensures InForce(o.navs, j) == InForce(before.navs, j) {
        ItemLeavesOthers(account, navs, before, item, j);
      }
      forall i | 0 <= i < n ensures Settled(account, navs, o, items[i]) {
        assert items[..n][i] == items[i];
        ItemLeavesOthers(account, navs, before, item, Key(account, items[i].date));
      }
    }
  }

  lemma ItemSettles(account: string, navs: NavTable, o: Outcome, item: Item)
    requires o.Published? && PublishItem(account, navs, o, item).Published?
    requires InForce(o.navs, Key(account, item.date)) == InForce(navs, Key(account, item.date))
    ensures Settled(account, navs, PublishItem(account, navs, o, item), item)
  {
    var k := Key(account, item.date);
    SaveGoldInForce(o.gold, k, item.gold.value, k);
    if item.nav.Some? && !Kept(navs, k, item.nav.value) {
      InsertedInForce(o.navs, k, StoredNav(item.nav.value).value, k);
    }
  }

  lemma SaveGoldInForce(rows: GoldTable, k: Key, g: Gold, j: Key)
    ensures j != k ==> InForce(SaveGold(rows, k, g), j) == InForce(rows, j)
    ensures j == k ==> InForce(SaveGold(rows, k, g), k).Some?
                       && Content(InForce(SaveGold(rows, k, g), k).value) == Content(g)
  {
    InsertedInForce(rows, k, g, j);
  }

  lemma ItemLeavesOthers(account: string, navs: NavTable, o: Outcome, item: Item, j: Key)
    requires o.Published? && PublishItem(account, navs, o, item).Published? && j != Key(account, item.date)
    ensures InForce(PublishItem(account, navs, o, item).navs, j) == InForce(o.navs, j)
    ensures InForce(PublishItem(account, navs, o, item).gold, j) == InForce(o.gold, j)
  {
    SaveGoldInForce(o.gold, Key(account, item.date), item.gold.value, j);
    if item.nav.Some? && StoredNav(item.nav.value).Some? {
      InsertedInForce(o.navs, Key(account, item.date), StoredNav(item.nav.value).value, j);
    }
  }

  // The second run

  /** Items whose NAV row would have to be written. */
  function Missing(account: string, navs: NavTable, items: seq<Item>): nat {
    if items == [] then 0
    else
      var last := items[|items| - 1];
      Missing(account, navs, items[..|items| - 1])
      + (if last.nav.Some? && !Kept(navs, Key(account, last.date), last.nav.value) then 1 else 0)
  }

  predicate GoldInForce(account: string, gold: GoldTable, item: Item) {
    var existing := InForce(gold, Key(account, item.date));
    && item.gold.Some? && existing.Some? && Content(existing.value) == Content(item.gold.value)
  }

  lemma AutomaticInsertAdds<K, V>(rows: seq<Row<K, V>>, k: K, v: V)
    ensures |Apply(rows, Insert(k, 0, v))| == |rows| + 1
  {
    assert !Taken(rows, k, LatestVersion(rows, k) + 1);
  }

  /** Over gold already in force, a run writes no gold and exactly the missing NAV rows. */
  lemma {:induction false} RunOverGold(account: string, gold: GoldTable, navs: NavTable, items: seq<Item>)
    requires forall item | item in items :: GoldInForce(account, gold, item)
    requires forall item | item in items && item.nav.Some? && !Kept(navs, Key(account, item.date), item.nav.value) ::
               StoredNav(item.nav.value).Some?
    ensures var o := Publish(account, gold, navs, items);
            && o.Published? && o.gold == gold && o.saved == Missing(account, navs, items)
            && |o.navs| == |navs| + o.saved && (o.saved == 0 ==> o.navs == navs)
    decreases |items|
  {
    if items != [] {
      var n := |items| - 1;
      RunOverGold(account, gold, navs, items[..n]);
      assert items[n] in items;
      var before := Publish(account, gold, navs, items[..n]);
      if items[n].nav.Some? && StoredNav(items[n].nav.value).Some? {
        AutomaticInsertAdds(before.navs, Key(account, items[n].date), StoredNav(items[n].nav.value).value);
      }
    }
  }

  /** A NAV row at the precision of its columns. */
  predicate Exact(nav: Nav) {
    && nav.formula == FORMULA && nav.source == SOURCE
    && Round6(nav.open) == nav.open && Round6(nav.externalNet) == nav.externalNet && Round6(nav.pnl) == nav.pnl
    && Round6(nav.close) == nav.close && Round6(nav.denominator) == nav.denominator
    && Round12(nav.dailyReturn) == nav.dailyReturn && Round12(nav.cumulative) == nav.cumulative
  }

  /** Rows of this formula hold a positive running value at the precision of its column. */
  ghost predicate Sound(navs: NavTable) {
    forall row | row in navs && row.value.formula == FORMULA ::
      row.value.cumulative > 0.0 && Round12(row.value.cumulative) == row.value.cumulative
  }

  /** What is stored counts as unchanged exactly when the running value was positive: otherwise one is stored instead. */
  lemma StoredIsUnchanged(nav: Nav)
    requires Exact(nav) && StoredNav(nav).Some?
    ensures Unchanged(StoredNav(nav).value, nav) <==> nav.cumulative > 0.0
  {
  }

  lemma NearAndExact(x: real, y: real)
    requires Near(x, y, 0.000000000001) && Round12(x) == x && Round12(y) == y
    ensures x == y
  {
    NearTrillionths(Round(x * 1000000000000.0), Round(y * 1000000000000.0));
  }

  lemma NearTrillionths(m: int, n: int)
    requires Near(m as real / 1000000000000.0, n as real / 1000000000000.0, 0.000000000001)
    ensures m == n
  {
    assert -1.0 < m as real - n as real < 1.0;
  }

  lemma {:induction false} InForceIsSound(navs: NavTable, k: Key)
    requires Sound(navs)
    ensures InForce(navs, k).Some? && InForce(navs, k).value.formula == FORMULA ==>
              InForce(navs, k).value.cumulative > 0.0 && Round12(InForce(navs, k).value.cumulative) == InForce(navs, k).value.cumulative
    decreases |navs|
  {
    if navs != [] {
      assert navs[|navs| - 1] in navs;
      InForceIsSound(navs[..|navs| - 1], k);
    }
  }

  /** After a settled item, its NAV row is in force for good exactly when its running value is positive. */
  lemma SettledIsKept(account: string, navs: NavTable, o: Outcome, item: Item)
    requires Sound(navs) && o.Published? && Settled(account, navs, o, item) && item.nav.Some? && Exact(item.nav.value)
    ensures Kept(o.navs, Key(account, item.date), item.nav.value) <==> item.nav.value.cumulative > 0.0
    ensures !Kept(o.navs, Key(account, item.date), item.nav.value) ==> StoredNav(item.nav.value).Some?
  {
    var k, nav := Key(account, item.date), item.nav.value;
    if Kept(navs, k, nav) {
      InForceIsSound(navs, k);
      NearAndExact(InForce(navs, k).value.cumulative, nav.cumulative);
    } else {
      StoredIsUnchanged(nav);
    }
  }

  predicate LosesNav(item: Item) {
    item.nav.Some? && item.nav.value.cumulative <= 0.0
  }

  /** Days whose running value is not positive, so that the table holds one instead. */
  function Lost(items: seq<Item>): nat {
    if items == [] then 0
    else
      var last := items[|items| - 1];
      Lost(items[..|items| - 1]) + (if LosesNav(last) then 1 else 0)
  }

  lemma {:induction false} MissingAreLost(account: string, navs: NavTable, o: Outcome, items: seq<Item>)
    requires Sound(navs) && o.Published?
    requires forall item | item in items ::
               Settled(account, navs, o, item) && (item.nav.Some? ==> Exact(item.nav.value))
    ensures Missing(account, o.navs, items) == Lost(items)
    decreases |items|
  {
    if items != [] {
      var last := items[|items| - 1];
      assert last in items;
      MissingAreLost(account, navs, o, items[..|items| - 1]);
      if last.nav.Some? {
        SettledIsKept(account, navs, o, last);
      }
    }
  }

  /** The same day, as another person or another moment confirms it. */
  predicate Reconfirms(item: Item, next: Item) {
    && next.date == item.date && (next.gold.Some? <==> item.gold.Some?) && (next.nav.Some? <==> item.nav.Some?)
    && (item.gold.Some? ==> Content(next.gold.value) == Content(item.gold.value))
    && (item.nav.Some? ==> next.nav.value == item.nav.value.(finalizedAt := next.nav.value.finalizedAt))
  }

  predicate ReconfirmsAll(items: seq<Item>, again: seq<Item>) {
    |again| == |items| && forall i | 0 <= i < |items| :: Reconfirms(items[i], again[i])
  }

  lemma {:induction false} MissingIgnoresConfirmation(account: string, navs: NavTable, items: seq<Item>, again: seq<Item>)
    requires ReconfirmsAll(items, again)
    ensures Missing(account, navs, again) == Missing(account, navs, items)
    decreases |items|
  {
    if items != [] {
      var n := |items| - 1;
      MissingIgnoresConfirmation(account, navs, items[..n], again[..n]);
      assert Reconfirms(items[n], again[n]);
    }
  }

  /** Publishing a plan again, whoever confirms it and whenever, writes no gold, and one NAV row for every day whose
      running value is not positive. */
  lemma RepublishPlan(account: string, gold: GoldTable, navs: NavTable, items: seq<Item>, again: seq<Item>)
    requires DistinctDates(items) && Sound(navs) && ReconfirmsAll(items, again)
    requires forall item | item in items && item.nav.Some? :: Exact(item.nav.value)
    requires Publish(account, gold, navs, items).Published?
    ensures var first := Publish(account, gold, navs, items);
            var second := Publish(account, first.gold, first.navs, again);
            && second.Published? && second.gold == first.gold && second.saved == Lost(items)
            && (second.saved == 0 <==> second.navs == first.navs)
  {
    var first := Publish(account, gold, navs, items);
    PublishSettles(account, gold, navs, items);
    MissingAreLost(account, navs, first, items);
    MissingIgnoresConfirmation(account, first.navs, items, again);
    forall i | 0 <= i < |again|
      ensures GoldInForce(account, first.gold, again[i])
      ensures again[i].nav.Some? && !Kept(first.navs, Key(account, again[i].date), again[i].nav.value) ==>
                StoredNav(again[i].nav.value).Some?
    {
      assert Reconfirms(items[i], again[i]) && Settled(account, navs, first, items[i]);
      if items[i].nav.Some? {
        SettledIsKept(account, navs, first, items[i]);
      }
    }
    RunOverGold(account, first.gold, first.navs, again);
  }

  // Publishing the same audit twice

  lemma NavForIsExact(previousTotal: int, day: Day, denominator: real, dailyReturn: real, cumulative: real,
                      fundsHash: string, at: int)
    requires Round6(denominator) == denominator
    requires Round12(dailyReturn) == dailyReturn && Round12(cumulative) == cumulative
    ensures Exact(NavFor(previousTotal, day, denominator, dailyReturn, cumulative, fundsHash, at))
  {
    CentsAreExact(OpenNav(previousTotal, day));
    CentsAreExact(ExternalNet(previousTotal, day));
    CentsAreExact(day.pnl);
    CentsAreExact(day.total);
  }

  lemma GrownIsExact(before: real, dailyReturn: real)
    ensures Round12(Grown(before, dailyReturn)) == Grown(before, dailyReturn)
  {
    RoundsOnce(before * (1.0 + dailyReturn));
  }

  lemma PlanIsExact(a: Audit, i: nat)
    requires i < |a.days|
    ensures ItemOf(a, i).nav.Some? ==> Exact(ItemOf(a, i).nav.value)
  {
    var day, previous := a.days[i], PreviousTotal(a.days, i);
    DenominatorIsExact(OpenNav(previous, day), Details(ReturnFlows(previous, day), FlowWeight));
    if day.total > 0 {
      RoundsOnce(ReturnOn(a.days, i));
      GrownIsExact(Cumulative(a.days, i), ReturnOn(a.days, i));
      NavForIsExact(previous, day, Base(previous, day), Round12(ReturnOn(a.days, i)), Cumulative(a.days, i + 1),
                    a.fundsHash, a.confirmedAt);
    }
  }

  lemma DenominatorIsExact(openCents: int, details: seq<Detail>)
    ensures Round6(Denominator(openCents, details)) == Denominator(openCents, details)
  {
    var w := Weighted(openCents, details);
    RoundOfWhole(Round((if w <= 0.0 then openCents as real else w) * 10000.0));
  }

  predicate DistinctDays(days: seq<Day>) {
    forall i, j | 0 <= i < j < |days| :: days[i].date != days[j].date
  }

  /** No published day brings the running value to zero or below. */
  predicate StaysPositive(days: seq<Day>) {
    forall i | 0 <= i < |days| && days[i].total > 0 :: Cumulative(days, i + 1) > 0.0
  }

  lemma {:induction false} NothingLost(items: seq<Item>)
    ensures Lost(items) == 0 <==> forall i | 0 <= i < |items| :: !LosesNav(items[i])
    decreases |items|
  {
    if items != [] {
      NothingLost(items[..|items| - 1]);
    }
  }

  lemma LosesNavOn(a: Audit, i: nat)
    requires i < |a.days|
    ensures LosesNav(Plan(a)[i]) <==> a.days[i].total > 0 && Cumulative(a.days, i + 1) <= 0.0
  {
  }

  lemma PlanLosesNothing(a: Audit)
    ensures Lost(Plan(a)) == 0 <==> StaysPositive(a.days)
  {
    NothingLost(Plan(a));
    forall i | 0 <= i < |a.days|
      ensures LosesNav(Plan(a)[i]) <==> a.days[i].total > 0 && Cumulative(a.days, i + 1) <= 0.0
    {
      LosesNavOn(a, i);
    }
  }

  lemma PlanReconfirmed(a: Audit, who: string, when: int)
    ensures ReconfirmsAll(Plan(a), Plan(a.(confirmedBy := who, confirmedAt := when)))
  {
    var b := a.(confirmedBy := who, confirmedAt := when);
    forall i | 0 <= i < |a.days| ensures Reconfirms(Plan(a)[i], Plan(b)[i]) {
      assert Plan(a)[i] == ItemOf(a, i) && Plan(b)[i] == ItemOf(b, i);
    }
  }

  /** Publishing the same audit a second time, confirmed by anyone at any time, always succeeds, never touches the gold
      table, and leaves the NAV table alone exactly when the running value stays positive on every published day. */
  lemma PublishTwice(a: Audit, who: string, when: int, gold: GoldTable, navs: NavTable)
    requires DistinctDays(a.days) && Sound(navs)
    requires Publish(a.account, gold, navs, Plan(a)).Published?
    ensures var first := Publish(a.account, gold, navs, Plan(a));
            var second := Publish(a.account, first.gold, first.navs, Plan(a.(confirmedBy := who, confirmedAt := when)));
            && second.Published? && second.gold == first.gold
            && (second.navs == first.navs <==> StaysPositive(a.days))
            && (second.saved == 0 <==> StaysPositive(a.days))
  {
    forall i | 0 <= i < |a.days| ensures Plan(a)[i].nav.Some? ==> Exact(Plan(a)[i].nav.value) {
      PlanIsExact(a, i);
    }
    PlanReconfirmed(a, who, when);
    RepublishPlan(a.account, gold, navs, Plan(a), Plan(a.(confirmedBy := who, confirmedAt := when)));
    PlanLosesNothing(a);
  }

  // Which days are accepted

  lemma {:induction false} AcceptableItemsArePublished(account: string, gold: GoldTable, navs: NavTable, items: seq<Item>)
    requires forall item | item in items :: item.gold.Some? && (item.nav.Some? ==> StoredNav(item.nav.value).Some?)
    ensures Publish(account, gold, navs, items).Published?
    decreases |items|
  {
    if items != [] {
      AcceptableItemsArePublished(account, gold, navs, items[..|items| - 1]);
      assert items[|items| - 1] in items;
    }
  }

  lemma GoldIsAccepted(previous: int, total: int, pnl: int, sourceRef: string, confirmedBy: string, at: int)
    ensures PrepareGold(Cents(previous), Cents(total), Cents(pnl), sourceRef, confirmedBy, at).Some?
            <==> previous >= 0 && total >= 0 && total >= pnl
  {
    CentsAreExact(previous);
    CentsAreExact(total);
    CentsAreExact(pnl);
    CentsAreExact(total - pnl);
    assert Cents(total) - Cents(pnl) == Cents(total - pnl);
  }

  /** Assets never negative, also before the day's profit, and a first funded day opens on something. */
  predicate Acceptable(days: seq<Day>, i: nat)
    requires i < |days|
  {
    var day, previous := days[i], PreviousTotal(days, i);
    previous >= 0 && day.total >= 0 && day.total >= day.pnl && (day.total > 0 ==> OpenNav(previous, day) > 0)
  }

  lemma ItemIsAcceptable(a: Audit, i: nat)
    requires i < |a.days|
    ensures Acceptable(a.days, i) <==>
            var item := ItemOf(a, i); item.gold.Some? && (item.nav.Some? ==> StoredNav(item.nav.value).Some?)
  {
    var day, previous := a.days[i], PreviousTotal(a.days, i);
    GoldIsAccepted(previous, day.total, day.pnl, a.fundsPath, a.confirmedBy, a.confirmedAt);
    if OpenNav(previous, day) > 0 {
      PositiveOpenPositiveDenominator(OpenNav(previous, day), ReturnFlows(previous, day));
    }
  }

  /** Into any tables, a statement of acceptable days is published. */
  lemma AcceptableDaysArePublished(a: Audit, gold: GoldTable, navs: NavTable)
    requires forall i | 0 <= i < |a.days| :: Acceptable(a.days, i)
    ensures Publish(a.account, gold, navs, Plan(a)).Published?
  {
    forall i | 0 <= i < |a.days|
      ensures var item := Plan(a)[i]; item.gold.Some? && (item.nav.Some? ==> StoredNav(item.nav.value).Some?)
    {
      ItemIsAcceptable(a, i);
    }
    AcceptableItemsArePublished(a.account, gold, navs, Plan(a));
  }

  /** Into empty tables nothing else is: one day that is not acceptable rolls the whole statement back. */
  lemma EmptyTablesAcceptExactly(a: Audit)
    ensures Publish(a.account, [], [], Plan(a)).Published? <==> forall i | 0 <= i < |a.days| :: Acceptable(a.days, i)
  {
    if forall i | 0 <= i < |a.days| :: Acceptable(a.days, i) {
      AcceptableDaysArePublished(a, [], []);
    } else {
      var i :| 0 <= i < |a.days| && !Acceptable(a.days, i);
      ItemIsAcceptable(a, i);
      PublishNext(a.account, [], [], Plan(a), i);
      PublishStaysRefused(a.account, [], [], Plan(a), i + 1);
    }
  }

  // What every publication keeps

  ghost predicate WellKept<V>(rows: seq<Row<Key, V>>) {
    Marked(rows) && Numbered(rows)
  }

  lemma InsertKeepsWell<V>(rows: seq<Row<Key, V>>, k: Key, v: V)
    requires WellKept(rows)
    ensures WellKept(Apply(rows, Insert(k, 0, v)))
  {
    ApplyKeepsMarked(rows, Insert(k, 0, v));
    ApplyKeepsNumbered(rows, Insert(k, 0, v));
  }

  /** Publications are automatically numbered writes: they keep one current row per key and versions without gaps. */
  lemma {:induction false} PublishKeepsTables(account: string, gold: GoldTable, navs: NavTable, items: seq<Item>)
    requires WellKept(gold) && WellKept(navs)
    ensures var o := Publish(account, gold, navs, items); o.Published? ==> WellKept(o.gold) && WellKept(o.navs)
    decreases |items|
  {
    if items != [] {
      var before, item := Publish(account, gold, navs, items[..|items| - 1]), items[|items| - 1];
      PublishKeepsTables(account, gold, navs, items[..|items| - 1]);
      if before.Published? && item.gold.Some? {
        InsertKeepsWell(before.gold, Key(account, item.date), item.gold.value);
        if item.nav.Some? && StoredNav(item.nav.value).Some? {
          InsertKeepsWell(before.navs, Key(account, item.date), StoredNav(item.nav.value).value);
        }
      }
    }
  }

  lemma InsertKeepsSound(navs: NavTable, k: Key, row: Nav)
    requires Sound(navs)
    requires row.formula == FORMULA ==> row.cumulative > 0.0 && Round12(row.cumulative) == row.cumulative
    ensures Sound(Apply(navs, Insert(k, 0, row)))
  {
    RetiredKeepsVersions(navs, k);
    var after := Apply(navs, Insert(k, 0, row));
    forall r | r in after && r.value.formula == FORMULA
      ensures r.value.cumulative > 0.0 && Round12(r.value.cumulative) == r.value.cumulative
    {
      var i :| 0 <= i < |after| && after[i] == r;
      if i < |navs| {
        assert navs[i] in navs && r.value == navs[i].value;
      }
    }
  }

  lemma StoredIsSound(nav: Nav)
    requires Exact(nav) && StoredNav(nav).Some?
    ensures var row := StoredNav(nav).value; row.cumulative > 0.0 && Round12(row.cumulative) == row.cumulative
  {
    RoundOfWhole(1000000000000);
  }

  /** So publications can follow one another: each leaves a NAV table the next one may start from. */
  lemma {:induction false} PublishKeepsSound(account: string, gold: GoldTable, navs: NavTable, items: seq<Item>)
    requires Sound(navs) && forall item | item in items && item.nav.Some? :: Exact(item.nav.value)
    ensures var o := Publish(account, gold, navs, items); o.Published? ==> Sound(o.navs)
    decreases |items|
  {
    if items != [] {
      var before, item := Publish(account, gold, navs, items[..|items| - 1]), items[|items| - 1];
      PublishKeepsSound(account, gold, navs, items[..|items| - 1]);
      assert item in items;
      if before.Published? && item.nav.Some? && StoredNav(item.nav.value).Some? {
        StoredIsSound(item.nav.value);
        InsertKeepsSound(before.navs, Key(account, item.date), StoredNav(item.nav.value).value);
      }
    }
  }

  // The statements and the publishing loop

  class PerformanceStore {
    var gold: GoldTable
    var navs: NavTable

    constructor ()
      ensures gold == [] && navs == []
    {
      gold, navs := [], [];
    }

    method UpsertGold(k: Key, g: Gold)
      modifies this`gold
      ensures gold == SaveGold(old(gold), k, g)
      ensures InForce(gold, k).Some? && Content(InForce(gold, k).value) == Content(g)
      ensures forall j | j != k :: InForce(gold, j) == InForce(old(gold), j)
    {
      SaveGoldInForce(gold, k, g, k);
      forall j: Key | j != k ensures InForce(SaveGold(gold, k, g), j) == InForce(gold, j) {
        SaveGoldInForce(gold, k, g, j);
      }
      var existing := InForce(gold, k);
      if existing.None? || Content(existing.value) != Content(g) {
        AutomaticInsertAdds(gold, k, g);
        gold := Retired(gold, k) + [Row(k, LatestVersion(gold, k) + 1, true, g)];
      }
    }

    /** Refused when the values are invalid or the chosen version exists; no chosen version means the next one. */
    method UpsertNav(k: Key, version: nat, nav: Nav) returns (saved: bool)
      modifies this`navs
      ensures saved <==> StoredNav(nav).Some? && !Taken(old(navs), k, VersionFor(old(navs), k, version))
      ensures if saved then navs == Apply(old(navs), Insert(k, version, StoredNav(nav).value)) else navs == old(navs)
      ensures version == 0 && StoredNav(nav).Some? ==> saved
    {
      var row := StoredNav(nav);
      if row.None? {
        return false;
      }
      AutomaticInsertAdds(navs, k, row.value);
      var next := if version > 0 then version else LatestVersion(navs, k) + 1;
      if Taken(navs, k, next) {
        return false;
      }
      navs := Retired(navs, k) + [Row(k, next, true, row.value)];
      saved := true;
    }

    /** Rewrites source, evidence and time of the row in force; what it is worth stays. */
    method UpdateNavStatus(position: nat, k: Key, nav: Nav) returns (found: bool)
      modifies this`navs
      ensures found <==> StoredNav(nav).Some? && position < |old(navs)| && old(navs)[position].key == k
                         && old(navs)[position].current
      ensures !found ==> navs == old(navs)
      ensures found ==>
                var v := old(navs)[position].value;
                navs == Apply(old(navs), Update(position, k, v.(source := nav.source, fundsHash := nav.fundsHash,
                                                                finalizedAt := nav.finalizedAt)))
    {
      if StoredNav(nav).None? || position >= |navs| || navs[position].key != k || !navs[position].current {
        return false;
      }
      var row := navs[position];
      navs := navs[position := row.(value := row.value.(source := nav.source, fundsHash := nav.fundsHash,
                                                        finalizedAt := nav.finalizedAt))];
      found := true;
    }

    /** One transaction: a refused day rolls everything back. */
    method PersistAudit(a: Audit) returns (ok: bool, goldSaved: nat, navsSaved: nat, navsKept: nat)
      modifies this
      ensures var o := Publish(a.account, old(gold), old(navs), Plan(a));
              if ok then o == Published(gold, navs, navsSaved, navsKept) && goldSaved == |a.days|
              else o.Refused? && gold == old(gold) && navs == old(navs)
    {
      ghost var plan := Plan(a);
      var gold0, navs0 := gold, navs;
      var cumulative, previousTotal := 1.0, 0;
      goldSaved, navsSaved, navsKept := 0, 0, 0;
      for i := 0 to |a.days|
        invariant plan == Plan(a) && |plan| == |a.days|
        invariant Publish(a.account, gold0, navs0, plan[..i]) == Published(gold, navs, navsSaved, navsKept)
        invariant cumulative == Cumulative(a.days, i) && previousTotal == PreviousTotal(a.days, i) && goldSaved == i
      {
        PublishNext(a.account, gold0, navs0, plan, i);
        var done;
        done, cumulative, navsSaved, navsKept := PersistDay(a, i, navs0, previousTotal, cumulative, navsSaved, navsKept);
        if !done {
          PublishStaysRefused(a.account, gold0, navs0, plan, i + 1);
          gold, navs := gold0, navs0;
          return false, 0, 0, 0;
        }
        goldSaved := goldSaved + 1;
        previousTotal := a.days[i].total;
      }
      assert plan[..|a.days|] == plan;
      ok := true;
    }

    method PersistDay(a: Audit, i: nat, before: NavTable, previousTotal: int, cumulative: real, saved: nat, kept: nat)
      returns (done: bool, cumulative': real, saved': nat, kept': nat)
      requires i < |a.days| && cumulative == Cumulative(a.days, i) && previousTotal == PreviousTotal(a.days, i)
      modifies this
      ensures var o := PublishItem(a.account, before, Published(old(gold), old(navs), saved, kept), ItemOf(a, i));
              if done then o == Published(gold, navs, saved', kept') && cumulative' == Cumulative(a.days, i + 1)
              else o.Refused?
    {
      done, cumulative', saved', kept' := false, cumulative, saved, kept;
      var day := a.days[i];
      var k := Key(a.account, day.date);
      var g := PrepareGold(Cents(previousTotal), Cents(day.total), Cents(day.pnl), a.fundsPath, a.confirmedBy, a.confirmedAt);
      if g.None? {
        return;
      }
      UpsertGold(k, g.value);
      if day.total <= 0 {
        done := true;
        return;
      }
      var denominator, _ := ReturnDenominator(OpenNav(previousTotal, day), ReturnFlows(previousTotal, day));
      var dailyReturn := DailyReturn(day.pnl, denominator);
      cumulative' := Grown(cumulative, dailyReturn);
      var nav := NavFor(previousTotal, day, denominator, Round12(dailyReturn), cumulative', a.fundsHash, a.confirmedAt);
      if Kept(before, k, nav) {
        kept' := kept + 1;
      } else {
        var stored := UpsertNav(k, 0, nav);
        if !stored {
          return;
        }
        saved' := saved + 1;
      }
      done := true;
    }
  }

  lemma {:induction false} PublishStaysRefused(account: string, gold: GoldTable, navs: NavTable, items: seq<Item>, n: nat)
    requires n <= |items| && Publish(account, gold, navs, items[..n]).Refused?
    ensures Publish(account, gold, navs, items).Refused?
    decreases |items|
  {
    if n < |items| {
      assert items[..|items| - 1][..n] == items[..n];
      PublishStaysRefused(account, gold, navs, items[..|items| - 1], n);
    } else {
      assert items[..n] == items;
    }
  }

  lemma PublishNext(account: string, gold: GoldTable, navs: NavTable, items: seq<Item>, i: nat)
    requires i < |items|
    ensures var o := Publish(account, gold, navs, items[..i]);
            Publish(account, gold, navs, items[..i + 1])
            == if o.Refused? then Refused else PublishItem(account, navs, o, items[i])
  {
    assert items[..i + 1][..i] == items[..i];
  }
}
