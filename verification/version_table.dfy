/** Tables that keep every version of a value and mark the row in force. */
module VersionTable {
  import opened Wrappers

  /** Rows stay in the order they were inserted; a row's position is its primary key. */
  datatype Row<K, V> = Row(key: K, version: int, current: bool, value: V)

  /** The rows of one key, oldest first. */
  function Of<K(==), V>(rows: seq<Row<K, V>>, k: K): seq<Row<K, V>> {
    if rows == [] then []
    else
      var last := rows[|rows| - 1];
      Of(rows[..|rows| - 1], k) + (if last.key == k then [last] else [])
  }

  function Retired<K(==), V>(rows: seq<Row<K, V>>, k: K): (r: seq<Row<K, V>>)
    ensures |r| == |rows|
  {
    if rows == [] then []
    else
      var last := rows[|rows| - 1];
      Retired(rows[..|rows| - 1], k) + [if last.key == k then last.(current := false) else last]
  }

  /** `COALESCE(max(version), 0)` over the rows of a key. */
  function LatestVersion<K(==), V>(rows: seq<Row<K, V>>, k: K): (n: int)
    ensures n >= 0
    ensures forall row | row in rows && row.key == k :: row.version <= n
  {
    if rows == [] then 0
    else
      var last, before := rows[|rows| - 1], LatestVersion(rows[..|rows| - 1], k);
      assert forall row | row in rows :: row == last || row in rows[..|rows| - 1];
      if last.key == k && last.version > before then last.version else before
  }

  predicate Taken<K(==), V(==)>(rows: seq<Row<K, V>>, k: K, version: int) {
    exists i :: 0 <= i < |rows| && rows[i].key == k && rows[i].version == version
  }

  /** What is in force for a key. */
  function InForce<K(==), V>(rows: seq<Row<K, V>>, k: K): Option<V> {
    if rows == [] then None
    else
      var last := rows[|rows| - 1];
      if last.key == k && last.current then Some(last.value) else InForce(rows[..|rows| - 1], k)
  }

  // Statements

  datatype Write<K, V> =
    | Insert(key: K, version: int, value: V)
    | Update(position: nat, key: K, value: V)

  function VersionFor<K(==), V>(rows: seq<Row<K, V>>, k: K, version: int): int {
    if version > 0 then version else LatestVersion(rows, k) + 1
  }

  /** One statement; one that breaks the unique version constraint changes nothing. */
  function Apply<K(==), V(==)>(rows: seq<Row<K, V>>, w: Write<K, V>): seq<Row<K, V>> {
    match w
    case Insert(k, version, v) =>
      var next := VersionFor(rows, k, version);
      if Taken(rows, k, next) then rows else Retired(rows, k) + [Row(k, next, true, v)]
    case Update(i, k, v) =>
      if i < |rows| && rows[i].key == k && rows[i].current then rows[i := rows[i].(value := v)] else rows
  }

  function ApplyAll<K(==), V(==)>(rows: seq<Row<K, V>>, ws: seq<Write<K, V>>): seq<Row<K, V>> {
    if ws == [] then rows else Apply(ApplyAll(rows, ws[..|ws| - 1]), ws[|ws| - 1])
  }

  // What every run keeps

  /** Only the row written last is current. */
  predicate LastIsCurrent<K, V>(rs: seq<Row<K, V>>) {
    forall i | 0 <= i < |rs| :: rs[i].current <==> i == |rs| - 1
  }

  /** Versions count 1, 2, 3, ... */
  predicate Counted<K, V>(rs: seq<Row<K, V>>) {
    forall i | 0 <= i < |rs| :: rs[i].version == i + 1
  }

  ghost predicate Marked<K(!new), V>(rows: seq<Row<K, V>>) {
    forall k :: LastIsCurrent(Of(rows, k))
  }

  ghost predicate Numbered<K(!new), V>(rows: seq<Row<K, V>>) {
    forall k :: Counted(Of(rows, k))
  }

  function Demoted<K, V>(rs: seq<Row<K, V>>): (r: seq<Row<K, V>>)
    ensures |r| == |rs|
    ensures forall i | 0 <= i < |rs| :: r[i] == rs[i].(current := false)
  {
    if rs == [] then [] else Demoted(rs[..|rs| - 1]) + [rs[|rs| - 1].(current := false)]
  }

  lemma {:induction false} RetiredOf<K, V>(rows: seq<Row<K, V>>, k: K, j: K)
    ensures Of(Retired(rows, k), j) == if j == k then Demoted(Of(rows, k)) else Of(rows, j)
    decreases |rows|
  {
    if rows != [] {
      RetiredOf(rows[..|rows| - 1], k, j);
      var r := Retired(rows, k);
      assert r[..|r| - 1] == Retired(rows[..|rows| - 1], k);
      var rs := Of(rows, k);
      if j == k && rows[|rows| - 1].key == k {
        assert rs[..|rs| - 1] == Of(rows[..|rows| - 1], k);
      }
    }
  }

  lemma InsertedOf<K, V>(rows: seq<Row<K, V>>, k: K, row: Row<K, V>, j: K)
    requires row.key == k
    ensures Of(Retired(rows, k) + [row], j) == if j == k then Demoted(Of(rows, k)) + [row] else Of(rows, j)
  {
    RetiredOf(rows, k, j);
    var r := Retired(rows, k) + [row];
    assert r[..|r| - 1] == Retired(rows, k);
  }

  /** The latest version of a key whose versions count from one is the number of its rows. */
  lemma {:induction false} LatestOfCounted<K, V>(rows: seq<Row<K, V>>, k: K)
    requires Counted(Of(rows, k))
    ensures LatestVersion(rows, k) == |Of(rows, k)|
    decreases |rows|
  {
    if rows != [] {
      var rs, before := Of(rows, k), Of(rows[..|rows| - 1], k);
      assert forall i | 0 <= i < |before| :: before[i] == rs[i];
      LatestOfCounted(rows[..|rows| - 1], k);
      if rows[|rows| - 1].key == k {
        assert rs[|rs| - 1] == rows[|rows| - 1];
      }
    }
  }

  lemma {:induction false} UpdatedOf<K, V>(rows: seq<Row<K, V>>, i: nat, v: V, j: K)
    requires i < |rows|
    ensures var updated := Of(rows[i := rows[i].(value := v)], j);
            && |updated| == |Of(rows, j)|
            && forall n | 0 <= n < |updated| ::
                 updated[n].version == Of(rows, j)[n].version && updated[n].current == Of(rows, j)[n].current
    decreases |rows|
  {
    var updated := rows[i := rows[i].(value := v)];
    if i < |rows| - 1 {
      UpdatedOf(rows[..|rows| - 1], i, v, j);
      assert updated[..|rows| - 1] == rows[..|rows| - 1][i := rows[i].(value := v)];
    } else {
      assert updated[..|rows| - 1] == rows[..|rows| - 1];
    }
  }

  /** Every statement leaves exactly the newest row of each key current. */
  lemma ApplyKeepsMarked<K(!new), V>(rows: seq<Row<K, V>>, w: Write<K, V>)
    requires Marked(rows)
    ensures Marked(Apply(rows, w))
  {
    forall j ensures LastIsCurrent(Of(Apply(rows, w), j)) {
      assert LastIsCurrent(Of(rows, j));
      match w
      case Insert(k, version, v) =>
        InsertedOf(rows, k, Row(k, VersionFor(rows, k, version), true, v), j);
      case Update(i, k, v) =>
        if i < |rows| { UpdatedOf(rows, i, v, j); }
    }
  }

  /** An automatic number is never taken, so the statement always adds a row, numbered one past the last. */
  lemma ApplyKeepsNumbered<K(!new), V>(rows: seq<Row<K, V>>, w: Write<K, V>)
    requires Numbered(rows)
    requires w.Insert? ==> w.version <= 0
    ensures Numbered(Apply(rows, w))
    ensures w.Insert? ==> |Of(Apply(rows, w), w.key)| == |Of(rows, w.key)| + 1
  {
    if w.Insert? {
      assert Counted(Of(rows, w.key));
      LatestOfCounted(rows, w.key);
      InsertedOf(rows, w.key, Row(w.key, VersionFor(rows, w.key, w.version), true, w.value), w.key);
    }
    forall j ensures Counted(Of(Apply(rows, w), j)) {
      assert Counted(Of(rows, j));
      match w
      case Insert(k, version, v) =>
        InsertedOf(rows, k, Row(k, VersionFor(rows, k, version), true, v), j);
      case Update(i, k, v) =>
        if i < |rows| { UpdatedOf(rows, i, v, j); }
    }
  }

  /** Any run of statements, with chosen or automatic versions, leaves exactly one current row per written key. */
  lemma {:induction false} RunsStayMarked<K(!new), V>(ws: seq<Write<K, V>>)
    ensures Marked(ApplyAll([], ws))
  {
    if ws != [] {
      RunsStayMarked(ws[..|ws| - 1]);
      ApplyKeepsMarked(ApplyAll([], ws[..|ws| - 1]), ws[|ws| - 1]);
    }
  }

  /** Any run of automatically numbered statements numbers each key's rows 1 to n and keeps row n current. */
  lemma {:induction false} AutomaticRunsCount<K(!new), V>(ws: seq<Write<K, V>>)
    requires forall w | w in ws :: w.Insert? ==> w.version <= 0
    ensures Numbered(ApplyAll([], ws)) && Marked(ApplyAll([], ws))
  {
    RunsStayMarked(ws);
    if ws != [] {
      AutomaticRunsCount(ws[..|ws| - 1]);
      assert ws[|ws| - 1] in ws;
      ApplyKeepsNumbered(ApplyAll([], ws[..|ws| - 1]), ws[|ws| - 1]);
    }
  }

  /** A chosen version is in force even when it is an old one: the current row carries the largest version
      exactly when the chosen one exceeded all others. */
  lemma ChosenVersionGoesBack<K, V>(rows: seq<Row<K, V>>, k: K, version: int, v: V)
    requires version > 0 && !Taken(rows, k, version)
    ensures InForce(Apply(rows, Insert(k, version, v)), k) == Some(v)
    ensures (forall row | row in Apply(rows, Insert(k, version, v)) && row.key == k :: row.version <= version)
            <==> LatestVersion(rows, k) < version
  {
    var r := Retired(rows, k);
    RetiredKeepsVersions(rows, k);
    LatestIsTaken(rows, k);
    if LatestVersion(rows, k) >= version {
      var i :| 0 <= i < |rows| && rows[i].key == k && rows[i].version == LatestVersion(rows, k);
      assert rows[i].version != version;
      assert r[i] in Apply(rows, Insert(k, version, v));
    }
  }

  lemma {:induction false} RetiredKeepsVersions<K, V>(rows: seq<Row<K, V>>, k: K)
    ensures forall i | 0 <= i < |rows| ::
              var r := Retired(rows, k)[i]; r == if rows[i].key == k then rows[i].(current := false) else rows[i]
    decreases |rows|
  {
    if rows != [] {
      RetiredKeepsVersions(rows[..|rows| - 1], k);
    }
  }

  lemma {:induction false} LatestIsTaken<K, V>(rows: seq<Row<K, V>>, k: K)
    ensures LatestVersion(rows, k) == 0 || Taken(rows, k, LatestVersion(rows, k))
    decreases |rows|
  {
    if rows != [] {
      LatestIsTaken(rows[..|rows| - 1], k);
    }
  }

  // Reading what is in force

  lemma {:induction false} RetiredInForce<K, V>(rows: seq<Row<K, V>>, k: K, j: K)
    ensures InForce(Retired(rows, k), j) == if j == k then None else InForce(rows, j)
    decreases |rows|
  {
    if rows != [] {
      RetiredInForce(rows[..|rows| - 1], k, j);
      assert Retired(rows, k)[..|rows| - 1] == Retired(rows[..|rows| - 1], k);
    }
  }

  /** An automatic insert puts its value in force and leaves what is in force elsewhere alone. */
  lemma InsertedInForce<K, V>(rows: seq<Row<K, V>>, k: K, v: V, j: K)
    ensures InForce(Apply(rows, Insert(k, 0, v)), j) == if j == k then Some(v) else InForce(rows, j)
  {
    RetiredInForce(rows, k, j);
    var row := Row(k, VersionFor(rows, k, 0), true, v);
    assert (Retired(rows, k) + [row])[..|rows|] == Retired(rows, k);
  }

  /** What is in force is the newest row. */
  lemma {:induction false} InForceIsNewest<K, V>(rows: seq<Row<K, V>>, k: K)
    requires LastIsCurrent(Of(rows, k))
    ensures var rs := Of(rows, k); InForce(rows, k) == if rs == [] then None else Some(rs[|rs| - 1].value)
    decreases |rows|
  {
    if rows != [] {
      var last, rs := rows[|rows| - 1], Of(rows, k);
      if last.key == k {
        assert rs[|rs| - 1] == last;
      } else {
        assert rs == Of(rows[..|rows| - 1], k);
        InForceIsNewest(rows[..|rows| - 1], k);
      }
    }
  }
}
