/** Counting maps: multisets kept as occurrence counts, compared by visiting keys in any order. */
module BrokerCounter {

  type Counter<K> = map<K, nat>

  ghost predicate Represents<K(!new)>(c: Counter<K>, m: multiset<K>) {
    (forall k | k in c :: c[k] == m[k]) && (forall k | k in m :: k in c)
  }

  /** Reading a Go map: an absent key reads as zero. */
  function Amount<K(==)>(totals: map<K, int>, k: K): int {
    if k in totals then totals[k] else 0
  }

  function Counted<K(==)>(c: Counter<K>, k: K): Counter<K> {
    c[k := Amount(c, k) + 1]
  }

  lemma CountedRepresents<K(!new)>(c: Counter<K>, m: multiset<K>, k: K)
    requires Represents(c, m)
    ensures Represents(Counted(c, k), m + multiset{k})
  {
  }

  /** What the first counter holds beyond the second, whatever order its keys come in. */
  method Surplus<K(!new,==)>(a: Counter<K>, b: Counter<K>, ghost m: multiset<K>, ghost n: multiset<K>) returns (count: nat)
    requires Represents(a, m) && Represents(b, n)
    ensures count == |m - n|
  {
    count := 0;
    var keys := a.Keys;
    ghost var rest := m - n;
    while keys != {}
      invariant keys <= a.Keys
      invariant forall k :: rest[k] == if k in keys then (m - n)[k] else 0
      invariant count + |rest| == |m - n|
      decreases keys
    {
      var k :| k in keys;
      if a[k] > Amount(b, k) {
        count := count + (a[k] - Amount(b, k));
      }
      assert (m - n)[k] == if a[k] > Amount(b, k) then a[k] - Amount(b, k) else 0;
      DropKey(rest, k);
      rest := rest[k := 0];
      keys := keys - {k};
    }
    assert rest == multiset{};
  }

  lemma DropKey<K>(m: multiset<K>, k: K)
    ensures |m| == |m[k := 0]| + m[k]
  {
  }

  /** Both surpluses together are zero exactly when nothing distinguishes the two. */
  lemma NothingUnmatched<K(!new)>(m: multiset<K>, n: multiset<K>)
    ensures |m - n| + |n - m| == 0 <==> m == n
  {
    if |m - n| + |n - m| == 0 {
      forall k ensures m[k] == n[k] {
        assert (m - n)[k] == 0 && (n - m)[k] == 0;
      }
    }
  }

  /** The loops over both counters: the size of the symmetric difference. */
  method Unmatched<K(!new,==)>(a: Counter<K>, b: Counter<K>, ghost m: multiset<K>, ghost n: multiset<K>)
    returns (count: nat)
    requires Represents(a, m) && Represents(b, n)
    ensures count == |m - n| + |n - m|
    ensures count == 0 <==> m == n
  {
    var more := Surplus(a, b, m, n);
    var less := Surplus(b, a, n, m);
    NothingUnmatched(m, n);
    count := more + less;
  }

  function Holding<K>(values: map<K, int>, wanted: int -> bool): set<K> {
    set k | k in values && wanted(values[k])
  }

  /** How many keys hold a value with a property, whatever order they come in. */
  method CountValues<K(!new,==)>(values: map<K, int>, wanted: int -> bool) returns (count: nat)
    ensures count == |Holding(values, wanted)|
  {
    count := 0;
    var keys := values.Keys;
    ghost var found: set<K> := {};
    while keys != {}
      invariant keys <= values.Keys && found !! keys && |found| == count
      invariant forall k :: k in found <==> k in values && k !in keys && wanted(values[k])
      decreases keys
    {
      var k :| k in keys;
      if wanted(values[k]) {
        count := count + 1;
        found := found + {k};
      }
      keys := keys - {k};
    }
    assert found == Holding(values, wanted);
  }
}
