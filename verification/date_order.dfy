/** Sorting by date text, as Go compares strings. */
module DateOrder {

  predicate Before(s: string, t: string) {
    t != [] && (s == [] || s[0] < t[0] || (s[0] == t[0] && Before(s[1..], t[1..])))
  }

  lemma {:induction false} BeforeIsTotal(s: string, t: string)
    ensures s == t || Before(s, t) || Before(t, s)
  {
    if s != [] && t != [] && s[0] == t[0] {
      BeforeIsTotal(s[1..], t[1..]);
      assert s == [s[0]] + s[1..] && t == [t[0]] + t[1..];
    }
  }

  lemma {:induction false} BeforeIsTransitive(s: string, t: string, u: string)
    requires Before(s, t) && Before(t, u)
    ensures Before(s, u)
  {
    if s != [] && s[0] == t[0] == u[0] {
      BeforeIsTransitive(s[1..], t[1..], u[1..]);
    }
  }

  lemma {:induction false} BeforeIsIrreflexive(s: string)
    ensures !Before(s, s)
  {
    if s != [] {
      BeforeIsIrreflexive(s[1..]);
    }
  }

  predicate Ascending<T>(items: seq<T>, date: T -> string) {
    forall i, j | 0 <= i < j < |items| :: Before(date(items[i]), date(items[j]))
  }

  predicate DistinctDates<T>(items: seq<T>, date: T -> string) {
    forall i, j | 0 <= i < j < |items| :: date(items[i]) != date(items[j])
  }

  function Placed<T>(x: T, items: seq<T>, date: T -> string): seq<T> {
    if items == [] then [x]
    else if Before(date(x), date(items[0])) then [x] + items
    else [items[0]] + Placed(x, items[1..], date)
  }

  function Sorted<T>(items: seq<T>, date: T -> string): seq<T> {
    if items == [] then [] else Placed(items[|items| - 1], Sorted(items[..|items| - 1], date), date)
  }

  lemma {:induction false} PlacedKeeps<T>(x: T, items: seq<T>, date: T -> string)
    ensures multiset(Placed(x, items, date)) == multiset(items) + multiset{x}
    decreases |items|
  {
    if items != [] && !Before(date(x), date(items[0])) {
      PlacedKeeps(x, items[1..], date);
      assert items == [items[0]] + items[1..];
    }
  }

  lemma AscendingTail<T>(first: T, rest: seq<T>, date: T -> string)
    ensures Ascending([first] + rest, date) <==> Ascending(rest, date) && forall y | y in rest :: Before(date(first), date(y))
  {
    var all := [first] + rest;
    assert forall i | 0 <= i < |rest| :: all[i + 1] == rest[i];
    if Ascending(all, date) {
      forall i, j | 0 <= i < j < |rest| ensures Before(date(rest[i]), date(rest[j])) {
        assert Before(date(all[i + 1]), date(all[j + 1]));
      }
      forall y | y in rest ensures Before(date(first), date(y)) {
        var i :| 0 <= i < |rest| && rest[i] == y;
        assert Before(date(all[0]), date(all[i + 1]));
      }
    }
  }

  lemma {:induction false} PlacedIsAscending<T>(x: T, items: seq<T>, date: T -> string)
    requires Ascending(items, date) && forall y | y in items :: date(y) != date(x)
    ensures Ascending(Placed(x, items, date), date)
    decreases |items|
  {
    if items != [] {
      BeforeIsTotal(date(x), date(items[0]));
      assert items == [items[0]] + items[1..];
      AscendingTail(items[0], items[1..], date);
      if Before(date(x), date(items[0])) {
        forall y | y in items[1..] ensures Before(date(x), date(y)) {
          BeforeIsTransitive(date(x), date(items[0]), date(y));
        }
        AscendingTail(x, items, date);
      } else {
        var rest := Placed(x, items[1..], date);
        PlacedIsAscending(x, items[1..], date);
        PlacedHolds(x, items[1..], rest, date);
        assert items[0] in items && Before(date(items[0]), date(x));
        AscendingTail(items[0], rest, date);
        assert Placed(x, items, date) == [items[0]] + rest;
      }
    }
  }

  lemma PlacedHolds<T>(x: T, items: seq<T>, placed: seq<T>, date: T -> string)
    requires placed == Placed(x, items, date)
    ensures forall y | y in placed :: y in items || y == x
    ensures x in placed && forall y | y in items :: y in placed
  {
    PlacedKeeps(x, items, date);
    assert x in multiset(placed);
    forall y | y in placed ensures y in items || y == x {
      assert y in multiset(placed);
    }
    forall y | y in items ensures y in placed {
      assert y in multiset(items) && y in multiset(placed);
    }
  }

  lemma {:induction false} SortedKeeps<T>(items: seq<T>, date: T -> string)
    ensures multiset(Sorted(items, date)) == multiset(items)
    decreases |items|
  {
    if items != [] {
      var n := |items| - 1;
      SortedKeeps(items[..n], date);
      PlacedKeeps(items[n], Sorted(items[..n], date), date);
      assert items == items[..n] + [items[n]];
    }
  }

  lemma SortedHolds<T>(items: seq<T>, sorted: seq<T>, date: T -> string)
    requires sorted == Sorted(items, date)
    ensures forall y | y in sorted :: y in items
    ensures forall y | y in items :: y in sorted
  {
    SortedKeeps(items, date);
    forall y | y in sorted ensures y in items {
      assert y in multiset(sorted) && y in multiset(items);
    }
    forall y | y in items ensures y in sorted {
      assert y in multiset(items) && y in multiset(sorted);
    }
  }

  /** Items of distinct dates have one ascending order, and this is it. */
  lemma {:induction false} SortedIsAscending<T>(items: seq<T>, date: T -> string)
    requires DistinctDates(items, date)
    ensures Ascending(Sorted(items, date), date)
    decreases |items|
  {
    if items != [] {
      var n := |items| - 1;
      var before := Sorted(items[..n], date);
      SortedIsAscending(items[..n], date);
      SortedHolds(items[..n], before, date);
      forall y | y in items[..n] ensures date(y) != date(items[n]) {
        var i :| 0 <= i < n && items[i] == y;
      }
      PlacedIsAscending(items[n], before, date);
    }
  }

  lemma {:induction false} PlacedAmongOthers<T>(x: T, items: seq<T>, date: T -> string)
    requires Ascending(Placed(x, items, date), date)
    ensures Ascending(items, date) && forall y | y in items :: date(y) != date(x)
    decreases |items|
  {
    BeforeIsIrreflexive(date(x));
    if items != [] {
      if Before(date(x), date(items[0])) {
        AscendingTail(x, items, date);
      } else {
        var rest := Placed(x, items[1..], date);
        assert items == [items[0]] + items[1..];
        AscendingTail(items[0], rest, date);
        PlacedAmongOthers(x, items[1..], date);
        PlacedHolds(x, items[1..], rest, date);
        AscendingTail(items[0], items[1..], date);
      }
    }
  }

  lemma DistinctNext<T>(items: seq<T>, n: nat, date: T -> string)
    requires |items| == n + 1 && DistinctDates(items[..n], date)
    requires forall y | y in items[..n] :: date(y) != date(items[n])
    ensures DistinctDates(items, date)
  {
    forall i, j | 0 <= i < j < |items| ensures date(items[i]) != date(items[j]) {
      assert items[..n][i] == items[i] && items[i] in items[..n];
      if j < n {
        assert items[..n][j] == items[j];
      }
    }
  }

  /** Sorting never makes equal dates ascend. */
  lemma {:induction false} AscendingMeansDistinct<T>(items: seq<T>, date: T -> string)
    requires Ascending(Sorted(items, date), date)
    ensures DistinctDates(items, date)
    decreases |items|
  {
    if items != [] {
      var n := |items| - 1;
      var before := Sorted(items[..n], date);
      PlacedAmongOthers(items[n], before, date);
      AscendingMeansDistinct(items[..n], date);
      SortedHolds(items[..n], before, date);
      DistinctNext(items, n, date);
    }
  }

  /** In date order, whatever the order of equal dates. */
  predicate NeverDescends<T>(items: seq<T>, date: T -> string) {
    forall i, j | 0 <= i < j < |items| :: !Before(date(items[j]), date(items[i]))
  }

  lemma {:induction false} PlacedNeverDescends<T>(x: T, items: seq<T>, date: T -> string)
    requires NeverDescends(items, date)
    ensures NeverDescends(Placed(x, items, date), date)
    decreases |items|
  {
    if items != [] {
      if Before(date(x), date(items[0])) {
        forall j | 0 <= j < |items| ensures !Before(date(items[j]), date(x)) {
          if Before(date(items[j]), date(x)) {
            BeforeIsTransitive(date(items[j]), date(x), date(items[0]));
            BeforeIsIrreflexive(date(items[0]));
          }
        }
      } else {
        var rest := Placed(x, items[1..], date);
        PlacedNeverDescends(x, items[1..], date);
        PlacedKeeps(x, items[1..], date);
        forall y | y in rest ensures !Before(date(y), date(items[0])) {
          assert y in multiset(rest);
          assert y in multiset(items[1..]) || y == x;
        }
      }
    }
  }

  lemma {:induction false} SortedNeverDescends<T>(items: seq<T>, date: T -> string)
    ensures NeverDescends(Sorted(items, date), date)
    decreases |items|
  {
    if items != [] {
      SortedNeverDescends(items[..|items| - 1], date);
      PlacedNeverDescends(items[|items| - 1], Sorted(items[..|items| - 1], date), date);
    }
  }

  lemma AscendingFromSmallest<T>(items: seq<T>, others: seq<T>, date: T -> string)
    requires Ascending(items, date) && Ascending(others, date) && multiset(items) == multiset(others)
    requires items != [] && others != []
    ensures items[0] == others[0]
  {
    assert items[0] in multiset(others) && others[0] in multiset(items);
    var i :| 0 <= i < |items| && items[i] == others[0];
    var j :| 0 <= j < |others| && others[j] == items[0];
    if i > 0 && j > 0 {
      BeforeIsTransitive(date(items[0]), date(items[i]), date(items[0]));
      BeforeIsIrreflexive(date(items[0]));
    }
  }

  /** Whatever sorts them, the same items end up in the same order. */
  lemma {:induction false} AscendingIsUnique<T>(items: seq<T>, others: seq<T>, date: T -> string)
    requires Ascending(items, date) && Ascending(others, date) && multiset(items) == multiset(others)
    ensures items == others
    decreases |items|
  {
    assert |multiset(items)| == |items| && |multiset(others)| == |others|;
    if items != [] {
      AscendingFromSmallest(items, others, date);
      assert items == [items[0]] + items[1..] && others == [others[0]] + others[1..];
      assert multiset(items[1..]) == multiset(items) - multiset{items[0]};
      assert multiset(others[1..]) == multiset(others) - multiset{others[0]};
      AscendingIsUnique(items[1..], others[1..], date);
    }
  }
}
