/** The string functions of Go's `strings` and `strconv` packages that the relay relies on. */
module Text {
  import opened Wrappers

  /** The code points Go's `unicode.IsSpace` accepts. */
  predicate IsSpace(c: char) {
    || c == ' ' || '\t' <= c <= '\r' || c == '\U{85}' || c == '\U{A0}' || c == '\U{1680}'
    || '\U{2000}' <= c <= '\U{200A}' || c == '\U{2028}' || c == '\U{2029}' || c == '\U{202F}'
    || c == '\U{205F}' || c == '\U{3000}'
  }

  function TrimLeft(s: string): (r: string)
    ensures r == [] || !IsSpace(r[0])
  {
    if s != [] && IsSpace(s[0]) then TrimLeft(s[1..]) else s
  }

  function TrimRight(s: string): (r: string)
    ensures r == [] || !IsSpace(r[|r| - 1])
  {
    if s != [] && IsSpace(s[|s| - 1]) then TrimRight(s[..|s| - 1]) else s
  }

  /** `strings.TrimSpace`. */
  function TrimSpace(s: string): (r: string)
  {
    TrimRight(TrimLeft(s))
  }

  lemma TrimSpaceKeeps(s: string)
    requires s != [] ==> !IsSpace(s[0]) && !IsSpace(s[|s| - 1])
    ensures TrimSpace(s) == s
  {
  }

  lemma {:induction false} TrimRightIsPrefix(s: string)
    ensures TrimRight(s) <= s
    decreases |s|
  {
    if s != [] && IsSpace(s[|s| - 1]) {
      TrimRightIsPrefix(s[..|s| - 1]);
    }
  }

  /** Trimming once is enough. */
  lemma TrimTwice(s: string)
    ensures TrimSpace(TrimSpace(s)) == TrimSpace(s)
  {
    TrimRightIsPrefix(TrimLeft(s));
    TrimSpaceKeeps(TrimSpace(s));
  }

  /** `strings.TrimSpace(s) == ""`. */
  predicate Blank(s: string) {
    forall c | c in s :: IsSpace(c)
  }

  predicate Free(s: string, c: char) {
    c !in s
  }

  /** Cutting both sides of an equation at the first occurrence of a separator. */
  lemma CutAt(x: string, s: string, y: string, t: string, sep: char)
    requires Free(x, sep) && Free(y, sep)
    requires x + [sep] + s == y + [sep] + t
    ensures x == y && s == t
  {
    var whole := x + [sep] + s;
    assert whole[|x|] == sep && whole[|y|] == sep by {
      assert whole == y + [sep] + t;
    }
    if |x| < |y| || |y| < |x| {
      assert false;
    }
    assert x == whole[..|x|] && y == whole[..|y|];
    assert s == whole[|x| + 1..] && t == whole[|y| + 1..];
  }

  /** The position of the first c, or the length. */
  function Find(s: string, c: char): (n: nat)
    ensures n <= |s| && c !in s[..n] && (n < |s| ==> s[n] == c)
  {
    if s == [] || s[0] == c then 0 else 1 + Find(s[1..], c)
  }

  lemma {:induction false} FindAfter(a: string, b: string, c: char)
    requires c !in a && (b == [] || b[0] == c)
    ensures Find(a + b, c) == |a|
    decreases |a|
  {
    if a == [] {
      assert a + b == b;
    } else {
      assert (a + b)[1..] == a[1..] + b && (a + b)[0] == a[0] && a[0] in a;
      FindAfter(a[1..], b, c);
    }
  }

  /** `strings.Trim` with a set of characters. */
  function TrimLeftOf(s: string, cut: string): string {
    if s != [] && s[0] in cut then TrimLeftOf(s[1..], cut) else s
  }

  function TrimRightOf(s: string, cut: string): string {
    if s != [] && s[|s| - 1] in cut then TrimRightOf(s[..|s| - 1], cut) else s
  }

  function Trim(s: string, cut: string): string {
    TrimRightOf(TrimLeftOf(s, cut), cut)
  }

  // Decimal numerals

  predicate IsDigit(c: char) {
    '0' <= c <= '9'
  }

  predicate AllDigits(s: string) {
    forall i | 0 <= i < |s| :: IsDigit(s[i])
  }

  function DigitChar(d: nat): (c: char)
    requires d < 10
    ensures IsDigit(c) && c as int == '0' as int + d
  {
    '0' + d as char
  }

  /** `%d` of a non-negative number. */
  function FormatNat(n: nat): (s: string)
    ensures s != [] && AllDigits(s)
  {
    if n < 10 then [DigitChar(n)] else FormatNat(n / 10) + [DigitChar(n % 10)]
  }

  function DigitsValue(s: string): nat
    requires AllDigits(s)
  {
    if s == [] then 0
    else DigitsValue(s[..|s| - 1]) * 10 + (s[|s| - 1] as int - '0' as int)
  }

  lemma {:induction false} ParseFormat(n: nat)
    ensures DigitsValue(FormatNat(n)) == n
  {
    var s := FormatNat(n);
    if n < 10 {
      assert s[..|s| - 1] == [];
    } else {
      ParseFormat(n / 10);
      assert s[..|s| - 1] == FormatNat(n / 10);
    }
  }

  lemma FormatNatInjective(n: nat, m: nat)
    requires FormatNat(n) == FormatNat(m)
    ensures n == m
  {
    ParseFormat(n);
    ParseFormat(m);
  }

  const UINT64_LIMIT: nat := 0x1_0000_0000_0000_0000
  const INT64_LIMIT: int := 0x8000_0000_0000_0000

  /** `strconv.ParseUint(s, 10, 64)`: digits only, no sign, below two to the sixty-fourth. */
  function ParseUint64(s: string): Option<nat> {
    if s != [] && AllDigits(s) && DigitsValue(s) < UINT64_LIMIT then Some(DigitsValue(s)) else None
  }

  /** `strconv.ParseInt(s, 10, 64)`: one optional sign, then digits, within the signed range. */
  function ParseInt64(s: string): Option<int> {
    var negative := s != [] && s[0] == '-';
    var body := if s != [] && (s[0] == '-' || s[0] == '+') then s[1..] else s;
    if body == [] || !AllDigits(body) then None
    else
      var magnitude: int := DigitsValue(body);
      var value := if negative then -magnitude else magnitude;
      if -INT64_LIMIT <= value < INT64_LIMIT then Some(value) else None
  }

  lemma DigitsAreNotBlank(s: string)
    requires s != [] && AllDigits(s)
    ensures TrimSpace(s) == s
  {
    assert IsDigit(s[0]) && IsDigit(s[|s| - 1]);
    TrimSpaceKeeps(s);
  }

  lemma ParseDigits(s: string)
    requires s != [] && AllDigits(s) && DigitsValue(s) < INT64_LIMIT
    ensures ParseInt64(s) == Some(DigitsValue(s))
  {
    assert IsDigit(s[0]);
  }

  /** A printed number that fits is read back. */
  lemma ParseInt64Format(n: nat)
    requires n < INT64_LIMIT
    ensures ParseInt64(TrimSpace(FormatNat(n))) == Some(n)
  {
    DigitsAreNotBlank(FormatNat(n));
    ParseFormat(n);
    ParseDigits(FormatNat(n));
  }
}
