/** Signed 64-bit arithmetic, and quotients that are unique. */
module Int64 {
  import opened Text

  /** Two's complement: what a 64-bit signed operation leaves of an exact result. */
  function Wrap(x: int): (r: int)
    ensures -INT64_LIMIT <= r < INT64_LIMIT
    ensures -INT64_LIMIT <= x < INT64_LIMIT ==> r == x
    ensures INT64_LIMIT <= x < 3 * INT64_LIMIT ==> r == x - 2 * INT64_LIMIT
  {
    (x + INT64_LIMIT) % (2 * INT64_LIMIT) - INT64_LIMIT
  }

  lemma MultiplyKeepsOrder(x: int, y: int, m: nat)
    ensures x < y ==> x * m + m <= y * m
  {
    if x < y {
      Expand(x, y - x, m);
      AtLeastOnce(y - x, m);
    }
  }

  lemma Expand(x: int, d: int, m: int)
    ensures (x + d) * m == x * m + d * m
  {
  }

  lemma AtLeastOnce(d: nat, m: nat)
    requires d >= 1
    ensures d * m >= m
  {
  }

  lemma QuotientIsUnique(h: int, r: nat, q: int, s: nat, m: nat)
    requires r < m && s < m && h * m + r == q * m + s
    ensures h == q && r == s
  {
    MultiplyKeepsOrder(h, q, m);
    MultiplyKeepsOrder(q, h, m);
  }

  lemma Remainder(h: nat, r: nat, m: nat)
    requires r < m
    ensures (h * m + r) % m == r && (h * m + r) / m == h
  {
    var x := h * m + r;
    QuotientIsUnique(h, r, x / m, x % m, m);
  }

  lemma ShiftedWrap(x: int, k: int)
    ensures Wrap(x + k * (2 * INT64_LIMIT)) == Wrap(x)
  {
    ShiftedRemainder(x + INT64_LIMIT, k, 2 * INT64_LIMIT);
  }

  lemma ShiftedRemainder(x: int, k: int, m: nat)
    requires m > 0
    ensures (x + k * m) % m == x % m
  {
    assert (x / m + k) * m == x / m * m + k * m;
    QuotientIsUnique(x / m + k, x % m, (x + k * m) / m, (x + k * m) % m, m);
  }

  /** Wrapping midway or only at the end makes no difference. */
  lemma WrapOnce(x: int, y: int)
    ensures Wrap(Wrap(x) + y) == Wrap(x + y)
    ensures Wrap(-Wrap(x)) == Wrap(-x)
  {
    var m := 2 * INT64_LIMIT;
    var k := (x + INT64_LIMIT) / m;
    assert Wrap(x) == x - k * m;
    ShiftedWrap(x + y, -k);
    ShiftedWrap(-x, k);
  }
}
