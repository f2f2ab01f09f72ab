/** The performance series: compounded returns, drawdowns, and asset changes taken from published NAV rows. */
module ReturnSeries {
  import opened Wrappers

  datatype Row = Row(date: string, formula: string, status: string, returnRate: real, pnl: real, open: real, close: real,
                     previousClose: real, overnight: real, assetChange: real, cumulativeReturn: real, drawdown: real,
                     excluded: bool)

  predicate OfficialFormula(formula: string) {
    "performance_economic_nav.v2" <= formula || formula == "broker_statement_nav.v1"
  }

  predicate Included(row: Row) {
    OfficialFormula(row.formula) && row.status != "blocked"
  }

  /** Returns of the included rows, in order. */
  function Returns(rows: seq<Row>): seq<real> {
    if rows == [] then []
    else
      var last := rows[|rows| - 1];
      Returns(rows[..|rows| - 1]) + (if Included(last) then [last.returnRate] else [])
  }

  function TotalPnl(rows: seq<Row>): real {
    if rows == [] then 0.0
    else
      var last := rows[|rows| - 1];
      TotalPnl(rows[..|rows| - 1]) + (if Included(last) then last.pnl else 0.0)
  }

  // Wealth, peak and drawdown

  function Grow(wealth: real, r: real): real {
    wealth * (1.0 + r)
  }

  /** One unit compounded: the wealth at the start and after each return. */
  function Path(rs: seq<real>): (p: seq<real>)
    ensures |p| == |rs| + 1 && p[0] == 1.0
  {
    if rs == [] then [1.0]
    else
      var p := Path(rs[..|rs| - 1]);
      p + [Grow(p[|p| - 1], rs[|rs| - 1])]
  }

  function Larger(x: real, y: real): real {
    if x > y then x else y
  }

  predicate FromOne(p: seq<real>) {
    p != [] && p[0] == 1.0
  }

  function Peak(p: seq<real>, n: nat): (peak: real)
    requires FromOne(p) && n < |p|
    ensures peak >= 1.0
  {
    if n == 0 then p[0] else Larger(p[n], Peak(p, n - 1))
  }

  function Drawdown(p: seq<real>, n: nat): real
    requires FromOne(p) && n < |p|
  {
    p[n] / Peak(p, n) - 1.0
  }

  function Deepest(p: seq<real>, n: nat): real
    requires FromOne(p) && n < |p|
  {
    if n == 0 then 0.0
    else if Drawdown(p, n) < Deepest(p, n - 1) then Drawdown(p, n)
    else Deepest(p, n - 1)
  }

  /** The peak is the largest wealth so far, the starting unit included. */
  lemma {:induction false} PeakIsLargest(p: seq<real>, n: nat) returns (at: nat)
    requires FromOne(p) && n < |p|
    ensures forall i | 0 <= i <= n :: p[i] <= Peak(p, n)
    ensures at <= n && p[at] == Peak(p, n)
    decreases n
  {
    at := n;
    if n > 0 {
      var before := PeakIsLargest(p, n - 1);
      if p[n] <= Peak(p, n - 1) {
        at := before;
      }
    }
  }

  /** The maximum drawdown is the least of all drawdowns from the peak so far. */
  lemma {:induction false} DeepestIsLeast(p: seq<real>, n: nat) returns (at: nat)
    requires FromOne(p) && n < |p|
    ensures forall j: nat | j <= n :: Deepest(p, n) <= Drawdown(p, j)
    ensures at <= n && Deepest(p, n) == Drawdown(p, at)
    decreases n
  {
    at := n;
    if n > 0 {
      var before := DeepestIsLeast(p, n - 1);
      if Drawdown(p, n) >= Deepest(p, n - 1) {
        at := before;
      }
    }
  }

  lemma GrowthIsPositive(w: real, r: real)
    requires w > 0.0 && r > -1.0
    ensures Grow(w, r) > 0.0
  {
  }

  predicate Positive(p: seq<real>) {
    forall i | 0 <= i < |p| :: p[i] > 0.0
  }

  lemma {:induction false} PathStaysPositive(rs: seq<real>)
    requires forall i | 0 <= i < |rs| :: rs[i] > -1.0
    ensures Positive(Path(rs))
    decreases |rs|
  {
    if rs != [] {
      var before := Path(rs[..|rs| - 1]);
      PathStaysPositive(rs[..|rs| - 1]);
      GrowthIsPositive(before[|before| - 1], rs[|rs| - 1]);
    }
  }

  lemma ProductsKeepOrder(a: real, b: real, y: real, z: real)
    requires 0.0 < y <= z && b > 0.0
    ensures a < b ==> a * y < b * z
  {
    assert a < b ==> (b - a) * y > 0.0;
    assert b * (z - y) >= 0.0;
  }

  lemma LargerDivisor(x: real, y: real, z: real)
    requires x > 0.0 && 0.0 < y <= z
    ensures x / y >= x / z
  {
    ProductsKeepOrder(x / y, x / z, y, z);
    assert x / y * y == x == x / z * z;
  }

  /** What is lost from point i to point j. */
  function Loss(p: seq<real>, i: nat, j: nat): real
    requires i < |p| && j < |p| && p[i] != 0.0
  {
    p[j] / p[i] - 1.0
  }

  lemma NoLossExceedsDrawdown(p: seq<real>, i: nat, j: nat)
    requires FromOne(p) && i <= j < |p| && p[i] > 0.0 && p[j] > 0.0
    ensures Loss(p, i, j) >= Drawdown(p, j)
  {
    var at := PeakIsLargest(p, j);
    LargerDivisor(p[j], p[i], Peak(p, j));
  }

  /** The quadratic definition: the worst loss over all pairs of points, held from the first to the second. */
  lemma DeepestIsWorstLoss(p: seq<real>) returns (i: nat, j: nat)
    requires FromOne(p) && Positive(p)
    ensures forall k: nat, l: nat | k <= l < |p| :: Deepest(p, |p| - 1) <= Loss(p, k, l)
    ensures i <= j < |p| && Deepest(p, |p| - 1) == Loss(p, i, j)
  {
    j := DeepestIsLeast(p, |p| - 1);
    i := PeakIsLargest(p, j);
    forall k: nat, l: nat | k <= l < |p| ensures Deepest(p, |p| - 1) <= Loss(p, k, l) {
      NoLossExceedsDrawdown(p, k, l);
    }
  }

  // The one-pass scan

  datatype Summary = Summary(startNetAsset: real, endNetAsset: real, totalPnl: real, totalReturn: real, maxDrawdown: real)

  /** The running variables of the scan. */
  datatype Running = Running(cumulative: real, peak: real, drawdown: real, maxDrawdown: real)

  /** The running variables once wealth has moved on. */
  function Follow(s: Running, cumulative: real): (t: Running)
    requires s.peak >= 1.0
    ensures t.peak >= 1.0 && t.cumulative == cumulative
  {
    var peak := if cumulative > s.peak then cumulative else s.peak;
    var drawdown := cumulative / peak - 1.0;
    Running(cumulative, peak, drawdown, if drawdown < s.maxDrawdown then drawdown else s.maxDrawdown)
  }

  function RunOver(p: seq<real>): (s: Running)
    requires p != []
    ensures s.peak >= 1.0
    ensures |p| > 1 ==> s.cumulative == p[|p| - 1]
  {
    if |p| == 1 then Running(1.0, 1.0, 0.0, 0.0) else Follow(RunOver(p[..|p| - 1]), p[|p| - 1])
  }

  lemma {:induction false} PrefixesAgree(p: seq<real>, n: nat, m: nat)
    requires FromOne(p) && n < m <= |p|
    ensures Peak(p[..m], n) == Peak(p, n) && Deepest(p[..m], n) == Deepest(p, n)
    decreases n
  {
    if n > 0 {
      PrefixesAgree(p, n - 1, m);
    }
  }

  /** The running variables are the wealth, its peak, the drawdown from it and the deepest drawdown. */
  lemma {:induction false} RunIsExact(p: seq<real>)
    requires FromOne(p)
    ensures var n := |p| - 1; RunOver(p) == Running(p[n], Peak(p, n), Drawdown(p, n), Deepest(p, n))
    decreases |p|
  {
    if |p| > 1 {
      var n := |p| - 1;
      RunIsExact(p[..n]);
      PrefixesAgree(p, n - 1, n);
    }
  }

  function SeriesAfter(rows: seq<Row>): Running {
    RunOver(Path(Returns(rows)))
  }

  /** What the first included row opens with and the last one closes with. */
  function Ends(rows: seq<Row>): Option<(real, real)> {
    if rows == [] then None
    else
      var last, before := rows[|rows| - 1], Ends(rows[..|rows| - 1]);
      if !Included(last) then before
      else Some((if before.Some? then before.value.0 else last.open, last.close))
  }

  lemma SeriesNext(rows: seq<Row>, i: nat)
    requires i < |rows|
    ensures Included(rows[i]) ==>
              Returns(rows[..i + 1]) != []
              && SeriesAfter(rows[..i + 1])
                 == Follow(SeriesAfter(rows[..i]), Grow(SeriesAfter(rows[..i]).cumulative, rows[i].returnRate))
    ensures !Included(rows[i]) ==> Returns(rows[..i + 1]) == Returns(rows[..i])
    ensures TotalPnl(rows[..i + 1]) == TotalPnl(rows[..i]) + (if Included(rows[i]) then rows[i].pnl else 0.0)
    ensures Ends(rows[..i + 1]) ==
            if !Included(rows[i]) then Ends(rows[..i])
            else Some((if Ends(rows[..i]).Some? then Ends(rows[..i]).value.0 else rows[i].open, rows[i].close))
  {
    assert rows[..i + 1][..i] == rows[..i];
    if Included(rows[i]) {
      var before, after := Returns(rows[..i]), Returns(rows[..i + 1]);
      assert after[..|after| - 1] == before;
      assert Path(after)[..|after|] == Path(before);
    }
  }

  /** What is written into a row, given the scan's variables with that row in them. */
  function Marked(row: Row, s: Running): Row {
    if Included(row) then row.(cumulativeReturn := s.cumulative - 1.0, drawdown := s.drawdown) else row.(excluded := true)
  }

  /** A row after the scan: included rows carry the series so far, others are only marked. */
  function Scanned(rows: seq<Row>, k: nat): Row
    requires k < |rows|
  {
    Marked(rows[k], SeriesAfter(rows[..k + 1]))
  }

  /** The scan's variables after some rows. */
  datatype Tally = Tally(s: Running, totalPnl: real, ends: Option<(real, real)>)

  function TallyOf(rows: seq<Row>): Tally {
    Tally(SeriesAfter(rows), TotalPnl(rows), Ends(rows))
  }

  function Tallied(t: Tally, row: Row): Tally
    requires t.s.peak >= 1.0
  {
    if !Included(row) then t
    else Tally(Follow(t.s, Grow(t.s.cumulative, row.returnRate)), t.totalPnl + row.pnl,
               Some((if t.ends.Some? then t.ends.value.0 else row.open, row.close)))
  }

  lemma TallyNext(rows: seq<Row>, i: nat)
    requires i < |rows|
    ensures TallyOf(rows[..i + 1]) == Tallied(TallyOf(rows[..i]), rows[i])
  {
    SeriesNext(rows, i);
  }

  lemma {:induction false} EndsAreThere(rows: seq<Row>)
    ensures Ends(rows).Some? <==> Returns(rows) != []
    decreases |rows|
  {
    if rows != [] {
      EndsAreThere(rows[..|rows| - 1]);
    }
  }

  method ScanRow(t: Tally, row: Row) returns (t': Tally, row': Row)
    requires t.s.peak >= 1.0
    ensures t' == Tallied(t, row) && row' == Marked(row, t'.s)
  {
    if !Included(row) {
      return t, row.(excluded := true);
    }
    var ends := Some((if t.ends.Some? then t.ends.value.0 else row.open, row.close));
    var s := Follow(t.s, Grow(t.s.cumulative, row.returnRate));
    t' := Tally(s, t.totalPnl + row.pnl, ends);
    row' := row.(cumulativeReturn := s.cumulative - 1.0, drawdown := s.drawdown);
  }

  method Scan(rows: array<Row>) returns (t: Tally)
    modifies rows
    ensures forall k | 0 <= k < rows.Length :: rows[k] == Scanned(old(rows[..]), k)
    ensures t == TallyOf(old(rows[..]))
  {
    t := Tally(Running(1.0, 1.0, 0.0, 0.0), 0.0, None);
    ghost var was := rows[..];
    for i := 0 to rows.Length
      invariant forall k | 0 <= k < i :: rows[k] == Scanned(was, k)
      invariant forall k | i <= k < rows.Length :: rows[k] == was[k]
      invariant t == TallyOf(was[..i])
    {
      TallyNext(was, i);
      t, rows[i] := ScanRow(t, rows[i]);
    }
    assert was[..rows.Length] == was;
  }

  /** Without an included row the summary stays as it was. */
  method BuildResearchSeries(rows: array<Row>, summary: Summary) returns (r: Summary)
    modifies rows
    ensures forall k | 0 <= k < rows.Length :: rows[k] == Scanned(old(rows[..]), k)
    ensures var was := old(rows[..]);
            var rs, p, ends := Returns(was), Path(Returns(was)), Ends(was);
            if ends.None? then rs == [] && r == summary
            else r == Summary(ends.value.0, ends.value.1, TotalPnl(was), p[|rs|] - 1.0, Deepest(p, |rs|))
  {
    ghost var was := rows[..];
    var t := Scan(rows);
    EndsAreThere(was);
    RunIsExact(Path(Returns(was)));
    r := if t.ends.None? then summary
         else Summary(t.ends.value.0, t.ends.value.1, t.totalPnl, t.s.cumulative - 1.0, t.s.maxDrawdown);
  }

  /** The maximum drawdown of a series whose included returns all exceed minus one is its worst loss between two
      points, and the scan's total return is what one unit compounds to, less one. */
  lemma SeriesMeetsTheDefinition(rows: seq<Row>) returns (i: nat, j: nat)
    requires forall k | 0 <= k < |Returns(rows)| :: Returns(rows)[k] > -1.0
    ensures var p := Path(Returns(rows));
            && Positive(p) && i <= j < |p| && Deepest(p, |p| - 1) == Loss(p, i, j)
            && forall k: nat, l: nat | k <= l < |p| :: Deepest(p, |p| - 1) <= Loss(p, k, l)
  {
    PathStaysPositive(Returns(rows));
    i, j := DeepestIsWorstLoss(Path(Returns(rows)));
  }

  lemma {:induction false} ReturnsAppend(a: seq<Row>, b: seq<Row>)
    ensures Returns(a + b) == Returns(a) + Returns(b)
    decreases |b|
  {
    if b == [] {
      assert a + b == a;
    } else {
      ReturnsAppend(a, b[..|b| - 1]);
      assert (a + b)[..|a + b| - 1] == a + b[..|b| - 1];
    }
  }

  lemma {:induction false} TotalPnlAppends(a: seq<Row>, b: seq<Row>)
    ensures TotalPnl(a + b) == TotalPnl(a) + TotalPnl(b)
    decreases |b|
  {
    if b == [] {
      assert a + b == a;
    } else {
      TotalPnlAppends(a, b[..|b| - 1]);
      assert (a + b)[..|a + b| - 1] == a + b[..|b| - 1];
    }
  }

  /** Rows that are not official or are blocked change no return, no drawdown and no total. */
  lemma ExcludedRowsPlayNoPart(a: seq<Row>, x: Row, b: seq<Row>)
    requires !Included(x)
    ensures Returns(a + [x] + b) == Returns(a + b)
    ensures SeriesAfter(a + [x] + b) == SeriesAfter(a + b)
    ensures TotalPnl(a + [x] + b) == TotalPnl(a + b)
  {
    TotalPnlAppends(a + [x], b);
    TotalPnlAppends(a, [x]);
    TotalPnlAppends(a, b);
    assert TotalPnl([x]) == 0.0;
    ReturnsAppend(a + [x], b);
    ReturnsAppend(a, [x]);
    ReturnsAppend(a, b);
    assert Returns([x]) == [];
  }
}
