/** Laying published NAV rows over the daily performance series. */
module NavOverlay {
  import opened DateOrder
  import opened ReturnSeries
  import opened Wrappers

  datatype Nav = Nav(date: string, formula: string, status: string, open: real, close: real, pnl: real,
                     dailyReturn: real, cumulative: real)

  predicate Official(nav: Nav) {
    OfficialFormula(nav.formula)
  }

  predicate Published(nav: Nav) {
    Official(nav) && nav.status != "blocked"
  }

  /** The NAV row that counts for a date: the last official one. */
  function NavOn(navs: seq<Nav>, date: string): Option<Nav> {
    if navs == [] then None
    else
      var last := navs[|navs| - 1];
      if last.date == date && Official(last) then Some(last) else NavOn(navs[..|navs| - 1], date)
  }

  // Adding the dates the series lacks

  function DateOf(row: Row): string {
    row.date
  }

  function EmptyRow(nav: Nav): Row {
    Row(nav.date, nav.formula, nav.status, 0.0, 0.0, 0.0, 0.0, 0.0, 0.0, 0.0, 0.0, 0.0, false)
  }

  predicate HasDate(rows: seq<Row>, date: string) {
    exists i :: 0 <= i < |rows| && rows[i].date == date
  }

  /** The first official NAV row of a date. */
  function FirstOn(navs: seq<Nav>, date: string): Option<Nav> {
    if navs == [] then None
    else
      var last, before := navs[|navs| - 1], FirstOn(navs[..|navs| - 1], date);
      if before.None? && last.date == date && Official(last) then Some(last) else before
  }

  lemma {:induction false} FirstAndLastOn(navs: seq<Nav>, date: string)
    ensures FirstOn(navs, date).Some? <==> NavOn(navs, date).Some?
    decreases |navs|
  {
    if navs != [] {
      FirstAndLastOn(navs[..|navs| - 1], date);
    }
  }

  /** One empty row for each official date the series lacks, made from the first NAV row of that date. */
  ghost predicate Fills(added: seq<Row>, series: seq<Row>, navs: seq<Nav>) {
    && DistinctDates(added, DateOf)
    && (forall d :: HasDate(added, d) <==> !HasDate(series, d) && FirstOn(navs, d).Some?)
    && (forall i | 0 <= i < |added| :: FirstOn(navs, added[i].date).Some?
                                       && added[i] == EmptyRow(FirstOn(navs, added[i].date).value))
  }

  /** The rows that were there, repeated dates included, and one for every official date without a row, in date order;
      rows of one date come in any order. */
  method MergeDates(series: seq<Row>, navs: seq<Nav>) returns (merged: seq<Row>, ghost added: seq<Row>)
    ensures multiset(merged) == multiset(series) + multiset(added) && Fills(added, series, navs)
    ensures NeverDescends(merged, DateOf)
    ensures DistinctDates(series, DateOf) ==> Ascending(merged, DateOf)
    ensures forall d :: HasDate(merged, d) <==> HasDate(series, d) || NavOn(navs, d).Some?
  {
    var present: set<string> := {};
    for k := 0 to |series|
      invariant forall d :: d in present <==> HasDate(series[..k], d)
    {
      HasDateNext(series, k);
      present := present + {series[k].date};
    }
    assert series[..|series|] == series;
    var rows := series;
    added := [];
    for k := 0 to |navs|
      invariant rows == series + added && Fills(added, series, navs[..k])
      invariant forall d :: d in present <==> HasDate(series, d) || HasDate(added, d)
    {
      FillsNext(added, series, navs, k);
      if navs[k].date !in present && Official(navs[k]) {
        HasDateLast(added, EmptyRow(navs[k]));
        added := added + [EmptyRow(navs[k])];
        rows := rows + [EmptyRow(navs[k])];
        present := present + {navs[k].date};
      }
    }
    assert navs[..|navs|] == navs;
    SortedKeeps(rows, DateOf);
    SortedNeverDescends(rows, DateOf);
    merged := Sorted(rows, DateOf);
    SameElements(rows, merged);
    HasDateEither(series, added);
    forall d ensures FirstOn(navs, d).Some? <==> NavOn(navs, d).Some? {
      FirstAndLastOn(navs, d);
    }
    if DistinctDates(series, DateOf) {
      DistinctTogether(series, added, navs);
      SortedIsAscending(rows, DateOf);
    }
  }

  lemma FillsNext(added: seq<Row>, series: seq<Row>, navs: seq<Nav>, k: nat)
    requires k < |navs| && Fills(added, series, navs[..k])
    ensures var lacking := !HasDate(series, navs[k].date) && !HasDate(added, navs[k].date) && Official(navs[k]);
            Fills(if lacking then added + [EmptyRow(navs[k])] else added, series, navs[..k + 1])
  {
    assert navs[..k + 1][..k] == navs[..k];
    var row := EmptyRow(navs[k]);
    HasDateLast(added, row);
    forall i | 0 <= i < |added| ensures HasDate(added, added[i].date) {}
  }

  lemma HasDateLast(rows: seq<Row>, row: Row)
    ensures forall d :: HasDate(rows + [row], d) <==> HasDate(rows, d) || row.date == d
  {
    var all := rows + [row];
    HasDateNext(all, |rows|);
    assert all[..|rows|] == rows && all[..|rows| + 1] == all;
  }

  lemma HasDateEither(series: seq<Row>, added: seq<Row>)
    ensures forall d :: HasDate(series + added, d) <==> HasDate(series, d) || HasDate(added, d)
  {
    forall d ensures HasDate(series + added, d) <==> HasDate(series, d) || HasDate(added, d) {
      if HasDate(series, d) {
        var i :| 0 <= i < |series| && series[i].date == d;
        assert (series + added)[i].date == d;
      }
      if HasDate(added, d) {
        var i :| 0 <= i < |added| && added[i].date == d;
        assert (series + added)[|series| + i].date == d;
      }
    }
  }

  lemma DistinctTogether(series: seq<Row>, added: seq<Row>, navs: seq<Nav>)
    requires DistinctDates(series, DateOf) && Fills(added, series, navs)
    ensures DistinctDates(series + added, DateOf)
  {
    forall i, j | 0 <= i < |series| && 0 <= j < |added| ensures series[i].date != added[j].date {
      assert HasDate(added, added[j].date) && HasDate(series, series[i].date);
    }
  }

  lemma HasDateNext(rows: seq<Row>, k: nat)
    requires k < |rows|
    ensures forall d :: HasDate(rows[..k + 1], d) <==> HasDate(rows[..k], d) || rows[k].date == d
  {
    forall d ensures HasDate(rows[..k + 1], d) <==> HasDate(rows[..k], d) || rows[k].date == d {
      if HasDate(rows[..k], d) {
        var i :| 0 <= i < k && rows[..k][i].date == d;
        assert rows[..k + 1][i].date == d;
      }
      if rows[k].date == d {
        assert rows[..k + 1][k].date == d;
      }
    }
  }

  lemma SameElements(rows: seq<Row>, sorted: seq<Row>)
    requires multiset(sorted) == multiset(rows)
    ensures forall row | row in rows :: row in sorted
    ensures forall d :: HasDate(sorted, d) <==> HasDate(rows, d)
  {
    forall row | row in rows ensures row in sorted {
      assert row in multiset(rows);
      assert row in multiset(sorted);
    }
    forall row | row in sorted ensures row in rows {
      assert row in multiset(sorted);
      assert row in multiset(rows);
    }
    forall d ensures HasDate(sorted, d) <==> HasDate(rows, d) {
      if HasDate(sorted, d) {
        var i :| 0 <= i < |sorted| && sorted[i].date == d;
        assert sorted[i] in rows;
      }
      if HasDate(rows, d) {
        var i :| 0 <= i < |rows| && rows[i].date == d;
        assert rows[i] in sorted;
      }
    }
  }

  // The overlay

  const DIAGNOSTIC := "legacy_cash_snapshot_diagnostic"

  /** A day without an official NAV row keeps nothing that could pass for performance. */
  function Diagnostic(row: Row): Row {
    row.(status := "blocked", formula := DIAGNOSTIC, previousClose := 0.0, open := 0.0, close := 0.0, overnight := 0.0,
         assetChange := 0.0, pnl := 0.0, returnRate := 0.0, cumulativeReturn := 0.0, drawdown := 0.0)
  }

  function Overlaid(row: Row, nav: Nav, previousClose: real): Row {
    row.(status := nav.status, formula := nav.formula, close := nav.close, open := nav.open,
         previousClose := previousClose,
         overnight := if previousClose > 0.0 then nav.open - previousClose else 0.0,
         assetChange := if previousClose > 0.0 then nav.close - previousClose else 0.0,
         pnl := nav.pnl, returnRate := nav.dailyReturn, cumulativeReturn := nav.cumulative - 1.0)
  }

  /** The last published close before the first day of the series, in the order the rows were listed. */
  function CloseBeforeSeries(navs: seq<Nav>, first: string): real {
    if navs == [] then 0.0
    else
      var last := navs[|navs| - 1];
      if Before(last.date, first) && Published(last) then last.close else CloseBeforeSeries(navs[..|navs| - 1], first)
  }

  /** The last published close before row k. */
  function PreviousClose(rows: seq<Row>, navs: seq<Nav>, k: nat): real
    requires k <= |rows|
  {
    if k == 0 then (if rows == [] then 0.0 else CloseBeforeSeries(navs, rows[0].date))
    else
      var nav := NavOn(navs, rows[k - 1].date);
      if nav.Some? && nav.value.status != "blocked" then nav.value.close else PreviousClose(rows, navs, k - 1)
  }

  function RowAfter(rows: seq<Row>, navs: seq<Nav>, k: nat): Row
    requires k < |rows|
  {
    var nav := NavOn(navs, rows[k].date);
    if nav.None? then Diagnostic(rows[k]) else Overlaid(rows[k], nav.value, PreviousClose(rows, navs, k))
  }

  method IndexByDate(navs: seq<Nav>) returns (byDate: map<string, Nav>)
    ensures forall d :: d in byDate <==> NavOn(navs, d).Some?
    ensures forall d | d in byDate :: NavOn(navs, d) == Some(byDate[d])
  {
    byDate := map[];
    for k := 0 to |navs|
      invariant forall d :: d in byDate <==> NavOn(navs[..k], d).Some?
      invariant forall d | d in byDate :: NavOn(navs[..k], d) == Some(byDate[d])
    {
      assert navs[..k + 1][..k] == navs[..k];
      if Official(navs[k]) {
        byDate := byDate[navs[k].date := navs[k]];
      }
    }
    assert navs[..|navs|] == navs;
  }

  method FindCloseBefore(navs: seq<Nav>, first: string) returns (close: real)
    ensures close == CloseBeforeSeries(navs, first)
  {
    close := 0.0;
    for k := 0 to |navs|
      invariant close == CloseBeforeSeries(navs[..k], first)
    {
      assert navs[..k + 1][..k] == navs[..k];
      if Before(navs[k].date, first) && Published(navs[k]) {
        close := navs[k].close;
      }
    }
    assert navs[..|navs|] == navs;
  }

  method Overlay(rows: array<Row>, navs: seq<Nav>)
    modifies rows
    ensures forall k | 0 <= k < rows.Length :: rows[k] == RowAfter(old(rows[..]), navs, k)
  {
    var byDate := IndexByDate(navs);
    var previousClose := 0.0;
    if rows.Length > 0 {
      previousClose := FindCloseBefore(navs, rows[0].date);
    }
    ghost var was := rows[..];
    for k := 0 to rows.Length
      invariant previousClose == PreviousClose(was, navs, k)
      invariant forall i | 0 <= i < k :: rows[i] == RowAfter(was, navs, i)
      invariant forall i | k <= i < rows.Length :: rows[i] == was[i]
    {
      if rows[k].date !in byDate {
        rows[k] := Diagnostic(rows[k]);
      } else {
        var nav := byDate[rows[k].date];
        rows[k] := Overlaid(rows[k], nav, previousClose);
        if nav.status != "blocked" {
          previousClose := nav.close;
        }
      }
    }
  }

  // What the overlaid rows add up to

  /** The series counts exactly the days with a published NAV row. */
  lemma OverlaidIsIncluded(rows: seq<Row>, navs: seq<Nav>, k: nat)
    requires k < |rows|
    ensures Included(RowAfter(rows, navs, k)) <==> NavOn(navs, rows[k].date).Some? && Published(NavOn(navs, rows[k].date).value)
  {
    NavOnIsOfficial(navs, rows[k].date);
  }

  lemma {:induction false} NavOnIsOfficial(navs: seq<Nav>, date: string)
    ensures NavOn(navs, date).Some? ==> NavOn(navs, date).value in navs && Official(NavOn(navs, date).value)
    decreases |navs|
  {
    if navs != [] {
      NavOnIsOfficial(navs[..|navs| - 1], date);
    }
  }

  /** Asset changes of the included rows among the first n. */
  function AssetChanges(rows: seq<Row>, navs: seq<Nav>, n: nat): real
    requires n <= |rows|
  {
    if n == 0 then 0.0
    else
      var row := RowAfter(rows, navs, n - 1);
      AssetChanges(rows, navs, n - 1) + (if Included(row) then row.assetChange else 0.0)
  }

  /** What the changes are counted from: the close before the series or, lacking one, the first published close. */
  function Anchor(rows: seq<Row>, navs: seq<Nav>, n: nat): real
    requires n <= |rows|
  {
    if n == 0 then PreviousClose(rows, navs, 0)
    else if Anchor(rows, navs, n - 1) > 0.0 then Anchor(rows, navs, n - 1)
    else PreviousClose(rows, navs, n)
  }

  /** The reported asset changes telescope: together they are the last published close less the anchor. */
  lemma {:induction false} AssetChangesTelescope(rows: seq<Row>, navs: seq<Nav>, n: nat)
    requires n <= |rows| && forall nav | nav in navs && Official(nav) :: nav.close > 0.0
    ensures AssetChanges(rows, navs, n) == PreviousClose(rows, navs, n) - Anchor(rows, navs, n)
    ensures Anchor(rows, navs, n) > 0.0 <==> PreviousClose(rows, navs, n) > 0.0
    decreases n
  {
    if n > 0 {
      AssetChangesTelescope(rows, navs, n - 1);
      OverlaidIsIncluded(rows, navs, n - 1);
      NavOnIsOfficial(navs, rows[n - 1].date);
    }
  }
}
