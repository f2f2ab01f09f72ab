/** Reading and printing money as whole cents in 64-bit integers. */
module BrokerMoney {
  import opened Int64
  import opened Text
  import opened Wrappers

  // Parsing

  /** `strings.ReplaceAll(s, ",", "")`. */
  function WithoutCommas(s: string): string {
    if s == [] then [] else WithoutCommas(s[..|s| - 1]) + (if s[|s| - 1] == ',' then [] else [s[|s| - 1]])
  }

  function TrimPrefix(s: string, c: char): string {
    if s != [] && s[0] == c then s[1..] else s
  }

  predicate AllZeros(s: string) {
    forall i | 0 <= i < |s| :: s[i] == '0'
  }

  function Padding(n: nat): (s: string)
    ensures |s| == n && AllZeros(s)
  {
    if n == 0 then "" else "0" + Padding(n - 1)
  }

  /** The first two decimals, padded with zeros; anything but zeros beyond them is refused. */
  function CentDigits(fraction: string): Option<string> {
    if |fraction| > 2 then (if AllZeros(fraction[2..]) then Some(fraction[..2]) else None)
    else Some(fraction + Padding(2 - |fraction|))
  }

  function ParseCents(fraction: string): Option<int> {
    match CentDigits(fraction)
    case None => None
    case Some(digits) => ParseInt64(digits)
  }

  function Assemble(negative: bool, whole: Option<int>, cents: Option<int>): Option<int> {
    if whole.None? || cents.None? then None
    else
      var result := Wrap(whole.value * 100 + cents.value);
      Some(if negative then Wrap(-result) else result)
  }

  function ParseParts(negative: bool, whole: string, fraction: string): Option<int> {
    Assemble(negative, ParseInt64(whole), ParseCents(fraction))
  }

  function ParseUnsigned(negative: bool, s: string): Option<int> {
    var n := Find(s, '.');
    ParseParts(negative, s[..n], if n < |s| then s[n + 1..] else "")
  }

  function ParseTrimmed(s: string): Option<int> {
    if s == "" || s == "--" || s == "-" then Some(0)
    else ParseUnsigned(s[0] == '-', TrimPrefix(TrimPrefix(s, '+'), '-'))
  }

  function ParseMoney(text: string): Option<int> {
    ParseTrimmed(TrimSpace(WithoutCommas(text)))
  }

  // Printing

  /** `%d`. */
  function FormatInt(n: int): string {
    if n < 0 then "-" + FormatNat(-n) else FormatNat(n)
  }

  /** `%02d`: the sign counts towards the width. */
  function FormatInt2(n: int): string {
    if 0 <= n < 10 then "0" + FormatNat(n) else FormatInt(n)
  }

  /** Negating the smallest value leaves it as it is; quotient and remainder then carry its sign. */
  function FormatCents(v: int): string {
    var magnitude := if v < 0 then Wrap(-v) else v;
    var negated := if magnitude < 0 then -magnitude else magnitude;
    var sign := if magnitude < 0 then -1 else 1;
    (if v < 0 then "-" else "") + FormatInt(sign * (negated / 100)) + "." + FormatInt2(sign * (negated % 100))
  }

  // Plain decimals

  datatype Sign = Plus | Minus | Unsigned

  function SignText(sign: Sign): string {
    match sign
    case Plus => "+"
    case Minus => "-"
    case Unsigned => ""
  }

  /** A sign, digits, and either nothing or a point and more digits. */
  function DecimalText(sign: Sign, whole: string, point: bool, fraction: string): string {
    SignText(sign) + whole + (if point then "." + fraction else "")
  }

  predicate Decimal(whole: string, point: bool, fraction: string) {
    whole != [] && AllDigits(whole) && AllDigits(fraction) && (!point ==> fraction == [])
  }

  function Pow10(n: nat): (p: nat)
    ensures p > 0
  {
    if n == 0 then 1 else 10 * Pow10(n - 1)
  }

  /** One hundred times the decimal's magnitude, over the power of ten of its fraction's length. */
  function Hundredfold(whole: string, fraction: string): nat
    requires AllDigits(whole) && AllDigits(fraction)
  {
    100 * (DigitsValue(whole) * Pow10(|fraction|) + DigitsValue(fraction))
  }

  lemma ShiftedIn(x: int, p: int, y: int, d: int)
    ensures (x * p + y) * 10 + d == x * (10 * p) + (y * 10 + d)
  {
  }

  lemma {:induction false} DigitsSplit(a: string, b: string)
    requires AllDigits(a) && AllDigits(b)
    ensures AllDigits(a + b) && DigitsValue(a + b) == DigitsValue(a) * Pow10(|b|) + DigitsValue(b)
    decreases |b|
  {
    if b == [] {
      assert a + b == a;
    } else {
      var n := |b| - 1;
      DigitsSplit(a, b[..n]);
      assert (a + b)[..|a + b| - 1] == a + b[..n];
      ShiftedIn(DigitsValue(a), Pow10(n), DigitsValue(b[..n]), b[n] as int - '0' as int);
    }
  }

  lemma {:induction false} DigitsBound(s: string)
    requires AllDigits(s)
    ensures DigitsValue(s) < Pow10(|s|)
    ensures DigitsValue(s) == 0 <==> AllZeros(s)
    decreases |s|
  {
    if s != [] {
      var n := |s| - 1;
      DigitsBound(s[..n]);
      assert AllZeros(s) <==> AllZeros(s[..n]) && s[n] == '0';
    }
  }

  lemma Divides(h: nat, t: nat, p: nat)
    requires t < p
    ensures (100 * (h * p + t)) % (100 * p) == 0 <==> t == 0
  {
    assert 100 * (h * p + t) == h * (100 * p) + 100 * t;
    Remainder(h, 100 * t, 100 * p);
  }

  lemma Distributes(w: int, p: int, f: int, q: int, r: int)
    requires 100 * f == q * p + r
    ensures 100 * (w * p + f) == (100 * w + q) * p + r
  {
  }

  lemma WholePart(w: nat, f: nat, p: nat)
    requires p > 0
    ensures 100 * (w * p + f) % p == 100 * f % p
    ensures 100 * (w * p + f) / p == 100 * w + 100 * f / p
  {
    Distributes(w, p, f, 100 * f / p, 100 * f % p);
    Remainder(100 * w + 100 * f / p, 100 * f % p, p);
  }

  /** The cent digits exist exactly when the fraction is a whole number of cents, and are that number. */
  lemma CentDigitsAreExact(fraction: string)
    requires AllDigits(fraction)
    ensures CentDigits(fraction).Some? <==> 100 * DigitsValue(fraction) % Pow10(|fraction|) == 0
    ensures CentDigits(fraction).Some? ==>
              var digits := CentDigits(fraction).value;
              && |digits| == 2 && AllDigits(digits)
              && DigitsValue(digits) == 100 * DigitsValue(fraction) / Pow10(|fraction|)
  {
    if |fraction| > 2 {
      LongFraction(fraction[..2], fraction[2..]);
      assert fraction == fraction[..2] + fraction[2..];
    } else {
      ShortFraction(fraction, Padding(2 - |fraction|));
    }
  }

  lemma LongFraction(head: string, tail: string)
    requires AllDigits(head) && AllDigits(tail) && |head| == 2
    ensures AllDigits(head + tail)
    ensures AllZeros(tail) <==> 100 * DigitsValue(head + tail) % Pow10(|head + tail|) == 0
    ensures AllZeros(tail) ==> DigitsValue(head) == 100 * DigitsValue(head + tail) / Pow10(|head + tail|)
  {
    DigitsSplit(head, tail);
    DigitsBound(tail);
    assert |head + tail| == |tail| + 2 && Pow10(|tail| + 2) == 10 * Pow10(|tail| + 1);
    WholeHundreds(DigitsValue(head), DigitsValue(tail), Pow10(|tail|));
  }

  lemma WholeHundreds(h: nat, t: nat, p: nat)
    requires t < p
    ensures t == 0 <==> 100 * (h * p + t) % (100 * p) == 0
    ensures t == 0 ==> h == 100 * (h * p + t) / (100 * p)
  {
    Divides(h, t, p);
    if t == 0 {
      assert 100 * (h * p + t) == h * (100 * p) + 0;
      Remainder(h, 0, 100 * p);
    }
  }

  lemma Rearranged(f: int, x: int, y: int)
    requires x * y == 100
    ensures (f * x + 0) * y == 100 * f
  {
    assert (f * x) * y == f * (x * y);
  }

  lemma ShortFraction(fraction: string, pad: string)
    requires AllDigits(fraction) && AllZeros(pad) && |fraction| + |pad| == 2
    ensures AllDigits(fraction + pad)
    ensures 100 * DigitsValue(fraction) % Pow10(|fraction|) == 0
    ensures DigitsValue(fraction + pad) == 100 * DigitsValue(fraction) / Pow10(|fraction|)
  {
    DigitsSplit(fraction, pad);
    DigitsBound(pad);
    assert Pow10(0) == 1 && Pow10(1) == 10 && Pow10(2) == 100;
    assert Pow10(|pad|) * Pow10(|fraction|) == 100;
    Rearranged(DigitsValue(fraction), Pow10(|pad|), Pow10(|fraction|));
    Remainder(DigitsValue(fraction + pad), 0, Pow10(|fraction|));
  }

  lemma DigitsLackPoint(s: string)
    requires AllDigits(s)
    ensures '.' !in s && ',' !in s
  {
  }

  lemma UnsignedDecimal(negative: bool, whole: string, point: bool, fraction: string)
    requires Decimal(whole, point, fraction)
    ensures ParseUnsigned(negative, whole + (if point then "." + fraction else "")) == ParseParts(negative, whole, fraction)
  {
    var s := whole + (if point then "." + fraction else "");
    DigitsLackPoint(whole);
    FindAfter(whole, if point then "." + fraction else "", '.');
    assert s[..|whole|] == whole;
    assert point ==> s[|whole| + 1..] == fraction;
  }

  lemma SignedBody(sign: Sign, body: string)
    requires body != [] && IsDigit(body[0])
    ensures ParseTrimmed(SignText(sign) + body) == ParseUnsigned(sign == Minus, body)
  {
    var s := SignText(sign) + body;
    match sign
    case Unsigned =>
      assert s == body;
    case Plus =>
      assert s[0] == '+' && s[1..] == body;
    case Minus =>
      assert s[0] == '-' && s[1] == body[0] && s[1..] == body;
  }

  lemma SignedDecimal(sign: Sign, whole: string, point: bool, fraction: string)
    requires Decimal(whole, point, fraction)
    ensures ParseTrimmed(DecimalText(sign, whole, point, fraction)) == ParseParts(sign == Minus, whole, fraction)
  {
    var body := whole + (if point then "." + fraction else "");
    assert IsDigit(whole[0]) && body[0] == whole[0];
    assert DecimalText(sign, whole, point, fraction) == SignText(sign) + body;
    SignedBody(sign, body);
    UnsignedDecimal(sign == Minus, whole, point, fraction);
  }

  lemma ParsedDigits(s: string)
    requires s != [] && AllDigits(s)
    ensures ParseInt64(s) == if DigitsValue(s) < INT64_LIMIT then Some(DigitsValue(s)) else None
  {
    assert IsDigit(s[0]);
  }

  lemma ParsedCents(fraction: string)
    requires AllDigits(fraction)
    ensures ParseCents(fraction) ==
            if 100 * DigitsValue(fraction) % Pow10(|fraction|) == 0
            then Some(100 * DigitsValue(fraction) / Pow10(|fraction|)) else None
  {
    CentDigitsAreExact(fraction);
    var digits := CentDigits(fraction);
    if digits.Some? {
      ParsedDigits(digits.value);
      DigitsBound(digits.value);
      assert Pow10(2) == 100;
    }
  }

  lemma Assembled(negative: bool, whole: Option<int>, cents: Option<int>, w: nat, f: nat, p: nat, h: nat)
    requires p > 0 && h == 100 * (w * p + f)
    requires whole == if w < INT64_LIMIT then Some(w) else None
    requires cents == if 100 * f % p == 0 then Some(100 * f / p) else None
    ensures Assemble(negative, whole, cents)
            == if w < INT64_LIMIT && h % p == 0 then Some(Wrap(if negative then -(h / p) else h / p)) else None
  {
    WholePart(w, f, p);
    WrapOnce(w * 100 + 100 * f / p, 0);
  }

  lemma ParsedParts(negative: bool, whole: string, fraction: string)
    requires whole != [] && AllDigits(whole) && AllDigits(fraction)
    ensures var h, p := Hundredfold(whole, fraction), Pow10(|fraction|);
            ParseParts(negative, whole, fraction) ==
            if DigitsValue(whole) < INT64_LIMIT && h % p == 0 then Some(Wrap(if negative then -(h / p) else h / p)) else None
  {
    ParsedCents(fraction);
    ParsedDigits(whole);
    Assembled(negative, ParseInt64(whole), ParseCents(fraction), DigitsValue(whole), DigitsValue(fraction),
              Pow10(|fraction|), Hundredfold(whole, fraction));
  }

  /**
   A plain decimal, commas and surrounding space aside, is read as exactly one hundred times its value, provided that
   is a whole number and its whole part fits; otherwise it is refused. A result out of range wraps.
   */
  lemma ParseDecimal(text: string, sign: Sign, whole: string, point: bool, fraction: string)
    requires Decimal(whole, point, fraction)
    requires TrimSpace(WithoutCommas(text)) == DecimalText(sign, whole, point, fraction)
    ensures var h, p := Hundredfold(whole, fraction), Pow10(|fraction|);
            ParseMoney(text) ==
            if DigitsValue(whole) < INT64_LIMIT && h % p == 0 then Some(Wrap(if sign == Minus then -(h / p) else h / p))
            else None
  {
    SignedDecimal(sign, whole, point, fraction);
    ParsedParts(sign == Minus, whole, fraction);
  }

  // Round trip

  lemma {:induction false} NoCommas(s: string)
    requires ',' !in s
    ensures WithoutCommas(s) == s
    decreases |s|
  {
    if s != [] {
      NoCommas(s[..|s| - 1]);
    }
  }

  lemma TwoDigitText(n: nat)
    requires n < 100
    ensures var s := FormatInt2(n); |s| == 2 && AllDigits(s) && DigitsValue(s) == n
  {
    ParseFormat(n);
    if n < 10 {
      DigitsSplit("0", FormatNat(n));
    } else {
      assert FormatNat(n) == FormatNat(n / 10) + [DigitChar(n % 10)];
    }
  }

  lemma NotSpace(c: char)
    requires IsDigit(c) || c == '-'
    ensures !IsSpace(c)
  {
  }

  /** A printed amount has no commas, and starts and ends with a digit or a sign: nothing is stripped from it. */
  lemma PrintedIsClean(s: string)
    requires s != [] && IsDigit(s[|s| - 1]) && (IsDigit(s[0]) || s[0] == '-') && ',' !in s
    ensures TrimSpace(WithoutCommas(s)) == s
  {
    NoCommas(s);
    NotSpace(s[0]);
    NotSpace(s[|s| - 1]);
    TrimSpaceKeeps(s);
  }

  lemma PrintedDecimal(sign: Sign, whole: string, fraction: string)
    requires sign != Plus && whole != [] && AllDigits(whole) && |fraction| == 2 && AllDigits(fraction)
    ensures TrimSpace(WithoutCommas(DecimalText(sign, whole, true, fraction))) == DecimalText(sign, whole, true, fraction)
  {
    var s := DecimalText(sign, whole, true, fraction);
    assert IsDigit(fraction[1]) && s[|s| - 1] == fraction[1] && IsDigit(whole[0]);
    DigitsLackPoint(whole);
    DigitsLackPoint(fraction);
    PrintedIsClean(s);
  }

  lemma FormatIsDecimal(v: int)
    requires -INT64_LIMIT < v < INT64_LIMIT
    ensures var n: nat := if v < 0 then -v else v;
            FormatCents(v) == DecimalText(if v < 0 then Minus else Unsigned, FormatNat(n / 100), true, FormatInt2(n % 100))
  {
  }

  lemma PartsReadBack(negative: bool, whole: string, fraction: string, n: nat)
    requires n < INT64_LIMIT
    requires whole != [] && AllDigits(whole) && DigitsValue(whole) == n / 100
    requires |fraction| == 2 && AllDigits(fraction) && DigitsValue(fraction) == n % 100
    ensures ParseParts(negative, whole, fraction) == Some(if negative then 0 - n else n)
  {
    ParsedDigits(whole);
    ParsedDigits(fraction);
    assert CentDigits(fraction) == Some(fraction) by {
      assert Padding(0) == "" && fraction + "" == fraction;
    }
    assert Assemble(negative, Some(n / 100), Some(n % 100)) == Some(if negative then 0 - n else n);
  }

  lemma RoundTripInRange(v: int)
    requires -INT64_LIMIT < v < INT64_LIMIT
    ensures ParseMoney(FormatCents(v)) == Some(v)
  {
    var n: nat := if v < 0 then -v else v;
    FormatIsDecimal(v);
    ParseFormat(n / 100);
    TwoDigitText(n % 100);
    var sign := if v < 0 then Minus else Unsigned;
    PrintedDecimal(sign, FormatNat(n / 100), FormatInt2(n % 100));
    SignedDecimal(sign, FormatNat(n / 100), true, FormatInt2(n % 100));
    PartsReadBack(v < 0, FormatNat(n / 100), FormatInt2(n % 100), n);
  }

  lemma ParsedNegative(digits: string)
    requires digits != [] && AllDigits(digits) && DigitsValue(digits) <= INT64_LIMIT
    ensures ParseInt64("-" + digits) == Some(0 - DigitsValue(digits))
  {
    assert ("-" + digits)[1..] == digits;
  }

  lemma SmallestPrints(whole: string)
    requires whole == FormatNat(INT64_LIMIT / 100)
    ensures FormatCents(-INT64_LIMIT) == "-" + ("-" + whole) + ".-8"
  {
    assert Wrap(INT64_LIMIT) == -INT64_LIMIT && INT64_LIMIT % 100 == 8;
    assert FormatInt2(-8) == "-8";
    assert "." + "-8" == ".-8";
  }

  lemma SmallestParts(whole: string)
    requires whole == FormatNat(INT64_LIMIT / 100)
    ensures ParseParts(true, "-" + whole, "-8") == Some(-INT64_LIMIT)
  {
    ParseFormat(INT64_LIMIT / 100);
    ParsedNegative(whole);
    ParsedNegative("8");
    assert "-" + "8" == "-8" && DigitsValue("8") == 8;
    assert Padding(0) == "" && "-8" + "" == "-8";
    assert CentDigits("-8") == Some("-8");
  }

  lemma SmallestIsUnsigned(whole: string)
    requires whole != [] && AllDigits(whole)
    ensures ParseUnsigned(true, ("-" + whole) + ".-8") == ParseParts(true, "-" + whole, "-8")
  {
    DigitsLackPoint(whole);
    SplitAtPoint(true, "-" + whole, "-8");
    assert ".-8" == "." + "-8";
  }

  lemma SplitAtPoint(negative: bool, head: string, tail: string)
    requires '.' !in head
    ensures ParseUnsigned(negative, head + ("." + tail)) == ParseParts(negative, head, tail)
  {
    var s := head + ("." + tail);
    FindAfter(head, "." + tail, '.');
    assert s[..|head|] == head && s[|head| + 1..] == tail;
  }

  lemma SecondSign(body: string)
    requires |body| > 1 && body[0] == '-'
    ensures ParseTrimmed("-" + body) == ParseUnsigned(true, body)
  {
    assert ("-" + body)[1..] == body;
  }

  /** The smallest amount prints as two signs, a quotient and a signed remainder, and these read back as it too. */
  lemma RoundTripOfSmallest()
    ensures ParseMoney(FormatCents(-INT64_LIMIT)) == Some(-INT64_LIMIT)
  {
    var whole := FormatNat(INT64_LIMIT / 100);
    var body := ("-" + whole) + ".-8";
    SmallestPrints(whole);
    assert FormatCents(-INT64_LIMIT) == "-" + body;
    DigitsLackPoint(whole);
    PrintedIsClean("-" + body);
    SecondSign(body);
    SmallestIsUnsigned(whole);
    SmallestParts(whole);
  }

  /** Every 64-bit amount, the smallest one included, is read back as printed. */
  lemma RoundTrip(v: int)
    requires -INT64_LIMIT <= v < INT64_LIMIT
    ensures ParseMoney(FormatCents(v)) == Some(v)
  {
    if v == -INT64_LIMIT {
      RoundTripOfSmallest();
    } else {
      RoundTripInRange(v);
    }
  }
}
