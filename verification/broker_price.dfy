/** Prices as text: what normalising them keeps, and when two of them normalise alike. */
module BrokerPrice {
  import opened BrokerMoney
  import opened Int64
  import opened Text

  function Shortened(t: string): string {
    if '.' in t then TrimRightOf(TrimRightOf(t, "0"), ".") else t
  }

  function NormalizeDecimal(s: string): string {
    var u := Shortened(TrimSpace(TrimLeftOf(s, "+")));
    if u == "" || u == "-0" then "0" else u
  }

  // What is left of a decimal

  lemma {:induction false} TrimRightStops(a: string, b: string, cut: string)
    requires a != [] && a[|a| - 1] !in cut
    ensures TrimRightOf(a + b, cut) == a + TrimRightOf(b, cut)
    decreases |b|
  {
    if b == [] {
      assert a + b == a;
    } else if b[|b| - 1] in cut {
      assert (a + b)[..|a + b| - 1] == a + b[..|b| - 1];
      TrimRightStops(a, b[..|b| - 1], cut);
    }
  }

  lemma {:induction false} TrimRightKeepsDigits(s: string)
    requires AllDigits(s)
    ensures AllDigits(TrimRightOf(s, "0"))
    decreases |s|
  {
    if s != [] {
      TrimRightKeepsDigits(s[..|s| - 1]);
    }
  }

  /** A fraction without its trailing zeros. */
  function Tail(fraction: string): string {
    TrimRightOf(fraction, "0")
  }

  function PointText(tail: string): string {
    if tail == [] then "" else "." + tail
  }

  lemma TrimmedTail(head: string, tail: string)
    requires head != [] && IsDigit(head[|head| - 1]) && AllDigits(tail)
    ensures TrimRightOf(head + "." + tail, ".") == head + PointText(tail)
  {
    var cut := ".";
    if tail == [] {
      TrimOne(head, '.', cut);
      NothingToTrim(head, cut);
      assert head + cut + tail == head + ['.'] && head + "" == head;
    } else {
      assert IsDigit(tail[|tail| - 1]);
      NothingToTrim(head + cut + tail, cut);
      assert head + cut + tail == head + (cut + tail);
    }
  }

  lemma TrimOne(s: string, c: char, cut: string)
    requires c in cut
    ensures TrimRightOf(s + [c], cut) == TrimRightOf(s, cut)
  {
    assert (s + [c])[..|s + [c]| - 1] == s;
  }

  lemma NothingToTrim(s: string, cut: string)
    requires s != [] && s[|s| - 1] !in cut
    ensures TrimRightOf(s, cut) == s
  {
  }

  lemma TrimmedDecimal(head: string, fraction: string)
    requires head != [] && IsDigit(head[|head| - 1]) && AllDigits(fraction)
    ensures TrimRightOf(TrimRightOf(head + "." + fraction, "0"), ".") == head + PointText(Tail(fraction))
  {
    TrimRightStops(head + ".", fraction, "0");
    TrimRightKeepsDigits(fraction);
    TrimmedTail(head, Tail(fraction));
    assert head + "." + fraction == (head + ".") + fraction;
  }

  /** The sign, the whole part, and what is left of the fraction; zero has no sign. */
  function NormalText(negative: bool, whole: string, tail: string): string {
    var u := (if negative then "-" else "") + whole + PointText(tail);
    if u == "-0" then "0" else u
  }

  /** A decimal as it comes out of trimming blanks and plus signs. */
  lemma UnplussedDecimal(sign: Sign, whole: string, point: bool, fraction: string)
    requires Decimal(whole, point, fraction)
    ensures TrimSpace(TrimLeftOf(DecimalText(sign, whole, point, fraction), "+"))
         == (if sign == Minus then "-" else "") + whole + (if point then "." + fraction else "")
  {
    var head := if sign == Minus then "-" else "";
    var rest := if point then "." + fraction else "";
    var t, s := head + whole + rest, DecimalText(sign, whole, point, fraction);
    assert IsDigit(whole[0]) && t[0] == if sign == Minus then '-' else whole[0];
    assert sign == Plus ==> s[0] == '+' && s[1..] == t;
    assert sign != Plus ==> s == t;
    LastIsDigitOrPoint(head, whole, rest);
    TrimSpaceKeeps(t);
  }

  lemma LastIsDigitOrPoint(head: string, whole: string, rest: string)
    requires whole != [] && AllDigits(whole)
    requires rest != [] ==> IsDigit(rest[|rest| - 1]) || rest[|rest| - 1] == '.'
    ensures var t := head + whole + rest; IsDigit(t[|t| - 1]) || t[|t| - 1] == '.'
  {
    var t := head + whole + rest;
    if rest == [] {
      assert t[|t| - 1] == whole[|whole| - 1];
    } else {
      assert t[|t| - 1] == rest[|rest| - 1];
    }
  }

  lemma TrimmedPoint(head: string, point: bool, fraction: string)
    requires head != [] && IsDigit(head[|head| - 1]) && '.' !in head && AllDigits(fraction) && (!point ==> fraction == [])
    ensures Shortened(head + (if point then "." + fraction else "")) == head + PointText(Tail(fraction))
  {
    var t := head + (if point then "." + fraction else "");
    if point {
      TrimmedDecimal(head, fraction);
      assert t == head + "." + fraction && t[|head|] == '.';
    } else {
      assert t == head && head + "" == head;
    }
  }

  /** A price keeps its sign and whole part and loses exactly its trailing zeros and a plus sign. */
  lemma NormalPrice(sign: Sign, whole: string, point: bool, fraction: string)
    requires Decimal(whole, point, fraction)
    ensures NormalizeDecimal(DecimalText(sign, whole, point, fraction)) == NormalText(sign == Minus, whole, Tail(fraction))
  {
    var head := (if sign == Minus then "-" else "") + whole;
    UnplussedDecimal(sign, whole, point, fraction);
    HeadEnds(sign, whole);
    TrimmedPoint(head, point, fraction);
    assert head + PointText(Tail(fraction)) != "";
  }

  lemma HeadEnds(sign: Sign, whole: string)
    requires whole != [] && AllDigits(whole)
    ensures var head := (if sign == Minus then "-" else "") + whole;
            head != [] && IsDigit(head[|head| - 1]) && '.' !in head
  {
    var head := (if sign == Minus then "-" else "") + whole;
    assert head[|head| - 1] == whole[|whole| - 1];
    DigitsLackPoint(whole);
  }

  // Equal texts

  /** No zeros before the number. */
  predicate Canonical(whole: string) {
    |whole| == 1 || (|whole| > 1 && whole[0] != '0')
  }

  lemma PointInText(whole: string, tail: string)
    requires AllDigits(whole)
    ensures '.' in whole + PointText(tail) <==> tail != []
    ensures whole + PointText(tail) == if tail == [] then whole else whole + ['.'] + tail
  {
    DigitsLackPoint(whole);
    if tail != [] {
      assert (whole + ['.'] + tail)[|whole|] == '.';
    }
  }

  lemma BodyInjective(whole: string, tail: string, whole': string, tail': string)
    requires AllDigits(whole) && AllDigits(whole') && whole + PointText(tail) == whole' + PointText(tail')
    ensures whole == whole' && tail == tail'
  {
    PointInText(whole, tail);
    PointInText(whole', tail');
    if tail != [] {
      CutAt(whole, tail, whole', tail', '.');
    }
  }

  predicate IsZero(whole: string, tail: string) {
    whole == "0" && tail == ""
  }

  lemma SignedText(whole: string, tail: string)
    requires Canonical(whole) && AllDigits(whole)
    ensures NormalText(false, whole, tail) == whole + PointText(tail)
    ensures NormalText(true, whole, tail) == if IsZero(whole, tail) then "0" else "-" + (whole + PointText(tail))
  {
    var body := whole + PointText(tail);
    assert IsDigit(body[0]);
    assert "" + whole + PointText(tail) == body && "-" + whole + PointText(tail) == "-" + body;
    if "-" + body == "-0" {
      assert body == ("-" + body)[1..] == "0";
      assert "0" == "0" + PointText("");
      BodyInjective(whole, tail, "0", "");
    }
  }

  /** Texts agree for equal signs and parts, and for the two zeros. */
  lemma TextInjective(negative: bool, whole: string, tail: string, negative': bool, whole': string, tail': string)
    requires Canonical(whole) && AllDigits(whole) && Canonical(whole') && AllDigits(whole')
    ensures NormalText(negative, whole, tail) == NormalText(negative', whole', tail')
            <==> whole == whole' && tail == tail' && (negative == negative' || IsZero(whole, tail))
  {
    SignedText(whole, tail);
    SignedText(whole', tail');
    var body, body' := whole + PointText(tail), whole' + PointText(tail');
    assert IsDigit(body[0]) && IsDigit(body'[0]) && ("-" + body)[1..] == body && ("-" + body')[1..] == body';
    assert IsZero(whole, tail) ==> body == "0";
    assert IsZero(whole', tail') ==> body' == "0";
    if body == body' {
      BodyInjective(whole, tail, whole', tail');
    }
  }

  // Equal numbers

  lemma {:induction false} SameDigits(a: string, b: string)
    requires AllDigits(a) && AllDigits(b) && |a| == |b| && DigitsValue(a) == DigitsValue(b)
    ensures a == b
    decreases |a|
  {
    if a != [] {
      var n := |a| - 1;
      QuotientIsUnique(DigitsValue(a[..n]), a[n] as int - '0' as int, DigitsValue(b[..n]), b[n] as int - '0' as int, 10);
      SameDigits(a[..n], b[..n]);
      assert a == a[..n] + [a[n]] && b == b[..n] + [b[n]];
    }
  }

  /** A canonical whole part is how its number prints. */
  lemma {:induction false} CanonicalPrints(whole: string)
    requires Canonical(whole) && AllDigits(whole)
    ensures FormatNat(DigitsValue(whole)) == whole
    ensures |whole| > 1 ==> DigitsValue(whole) >= 10
    decreases |whole|
  {
    var n := |whole| - 1;
    var digit := whole[n] as int - '0' as int;
    if n == 0 {
      assert DigitsValue(whole[..0]) == 0 && whole == [whole[0]];
    } else {
      CanonicalPrints(whole[..n]);
      assert whole[..n][0] == whole[0];
      assert n == 1 ==> DigitsValue(whole[..1]) == DigitsValue(whole[..1][..0]) * 10 + (whole[0] as int - '0' as int);
      Remainder(DigitsValue(whole[..n]), digit, 10);
      assert whole == whole[..n] + [whole[n]];
    }
  }

  lemma {:induction false} TailAndZeros(fraction: string)
    requires AllDigits(fraction)
    ensures |Tail(fraction)| <= |fraction| && fraction == Tail(fraction) + Padding(|fraction| - |Tail(fraction)|)
    decreases |fraction|
  {
    if fraction != [] && fraction[|fraction| - 1] == '0' {
      var n := |fraction| - 1;
      TailAndZeros(fraction[..n]);
      OneMoreZero(n - |Tail(fraction[..n])|);
      assert fraction == fraction[..n] + "0";
    }
  }

  lemma {:induction false} OneMoreZero(n: nat)
    ensures Padding(n) + "0" == Padding(n + 1)
  {
    if n > 0 {
      OneMoreZero(n - 1);
      assert Padding(n) + "0" == "0" + (Padding(n - 1) + "0");
    } else {
      assert Padding(1) == "0" + Padding(0);
    }
  }

  lemma {:induction false} TailIgnoresZeros(fraction: string, n: nat)
    ensures Tail(fraction + Padding(n)) == Tail(fraction)
  {
    if n == 0 {
      assert fraction + Padding(0) == fraction;
    } else {
      TailIgnoresZeros(fraction, n - 1);
      OneMoreZero(n - 1);
      TrimOne(fraction + Padding(n - 1), '0', "0");
      assert fraction + Padding(n) == fraction + Padding(n - 1) + "0";
    }
  }

  lemma {:induction false} PaddingAdds(m: nat, n: nat)
    ensures Padding(m) + Padding(n) == Padding(m + n)
  {
    if m > 0 {
      PaddingAdds(m - 1, n);
      assert Padding(m) + Padding(n) == "0" + (Padding(m - 1) + Padding(n));
    }
  }

  lemma SameTailSameText(tail: string, m: nat, n: nat)
    ensures (tail + Padding(m)) + Padding(|tail| + n) == (tail + Padding(n)) + Padding(|tail| + m)
  {
    PaddingAdds(m, |tail| + n);
    PaddingAdds(n, |tail| + m);
    assert (tail + Padding(m)) + Padding(|tail| + n) == tail + (Padding(m) + Padding(|tail| + n));
    assert (tail + Padding(n)) + Padding(|tail| + m) == tail + (Padding(n) + Padding(|tail| + m));
  }

  /** Fractions of one value, written to one length, are the same text; and have the same tail. */
  lemma SameTail(f: string, g: string)
    requires AllDigits(f) && AllDigits(g)
    ensures f + Padding(|g|) == g + Padding(|f|) <==> Tail(f) == Tail(g)
  {
    TailIgnoresZeros(f, |g|);
    TailIgnoresZeros(g, |f|);
    if Tail(f) == Tail(g) {
      TailAndZeros(f);
      TailAndZeros(g);
      SameTailSameText(Tail(f), |f| - |Tail(f)|, |g| - |Tail(g)|);
    }
  }

  lemma Padded(f: string, n: nat)
    requires AllDigits(f)
    ensures AllDigits(f + Padding(n)) && DigitsValue(f + Padding(n)) == DigitsValue(f) * Pow10(n)
  {
    DigitsSplit(f, Padding(n));
    DigitsBound(Padding(n));
  }

  lemma {:induction false} PowersMultiply(m: nat, n: nat)
    ensures Pow10(m) * Pow10(n) == Pow10(m + n)
  {
    if m > 0 {
      PowersMultiply(m - 1, n);
      Associates(10, Pow10(m - 1), Pow10(n));
    }
  }

  lemma Associates(a: int, b: int, c: int)
    ensures a * b * c == a * (b * c)
  {
  }

  /** Numerator of the decimal over the power of ten of its fraction's length. */
  function Magnitude(whole: string, fraction: string): nat
    requires AllDigits(whole) && AllDigits(fraction)
  {
    DigitsValue(whole) * Pow10(|fraction|) + DigitsValue(fraction)
  }

  /** Brought to the length of both fractions. */
  lemma Lengthened(whole: string, fraction: string, n: nat)
    requires AllDigits(whole) && AllDigits(fraction)
    ensures AllDigits(fraction + Padding(n))
    ensures Magnitude(whole, fraction) * Pow10(n)
         == DigitsValue(whole) * Pow10(|fraction| + n) + DigitsValue(fraction + Padding(n))
    ensures DigitsValue(fraction + Padding(n)) < Pow10(|fraction| + n)
  {
    Padded(fraction, n);
    DigitsBound(fraction + Padding(n));
    PowersMultiply(|fraction|, n);
    Associates(DigitsValue(whole), Pow10(|fraction|), Pow10(n));
    Distributed(DigitsValue(whole) * Pow10(|fraction|), DigitsValue(fraction), Pow10(n));
  }

  lemma Distributed(a: int, b: int, c: int)
    ensures (a + b) * c == a * c + b * c
  {
  }

  /** Cross-multiplied magnitudes agree exactly when whole parts and tails do. */
  lemma SameMagnitude(whole: string, fraction: string, whole': string, fraction': string)
    requires AllDigits(whole) && AllDigits(fraction) && AllDigits(whole') && AllDigits(fraction')
    requires Canonical(whole) && Canonical(whole')
    ensures Magnitude(whole, fraction) * Pow10(|fraction'|) == Magnitude(whole', fraction') * Pow10(|fraction|)
            <==> whole == whole' && Tail(fraction) == Tail(fraction')
  {
    var x, y := fraction + Padding(|fraction'|), fraction' + Padding(|fraction|);
    Lengthened(whole, fraction, |fraction'|);
    Lengthened(whole', fraction', |fraction|);
    SameTail(fraction, fraction');
    if Magnitude(whole, fraction) * Pow10(|fraction'|) == Magnitude(whole', fraction') * Pow10(|fraction|) {
      QuotientIsUnique(DigitsValue(whole), DigitsValue(x), DigitsValue(whole'), DigitsValue(y), Pow10(|x|));
      SameDigits(x, y);
      CanonicalPrints(whole);
      CanonicalPrints(whole');
    }
  }

  lemma ZeroMagnitude(whole: string, fraction: string)
    requires AllDigits(whole) && AllDigits(fraction) && Canonical(whole)
    ensures Magnitude(whole, fraction) == 0 <==> IsZero(whole, Tail(fraction))
  {
    assert DigitsValue("0") == 0 && Magnitude("0", "") == 0 && Pow10(0) == 1 && Tail("") == "";
    SameMagnitude(whole, fraction, "0", "");
    Positive(Magnitude(whole, fraction), Pow10(|""|));
  }

  lemma Positive(a: nat, b: nat)
    requires b > 0
    ensures a * b == 0 <==> a == 0
  {
  }

  function Signed(sign: Sign, magnitude: nat): int {
    if sign == Minus then 0 - magnitude else magnitude
  }

  lemma SignsAgree(sign: Sign, a: nat, sign': Sign, b: nat, p: nat, q: nat)
    requires p > 0 && q > 0
    ensures Signed(sign, a) * p == Signed(sign', b) * q
            <==> a * p == b * q && ((sign == Minus) == (sign' == Minus) || a == 0)
  {
    Positive(a, p);
    Positive(b, q);
    assert (0 - a) * p == 0 - a * p && (0 - b) * q == 0 - b * q;
  }

  /** Two prices without leading zeros normalise to one text exactly when they are the same number, whatever their signs
      and however many decimals they are written with. */
  lemma SamePrice(sign: Sign, whole: string, point: bool, fraction: string,
                  sign': Sign, whole': string, point': bool, fraction': string)
    requires Decimal(whole, point, fraction) && Decimal(whole', point', fraction') && Canonical(whole) && Canonical(whole')
    ensures NormalizeDecimal(DecimalText(sign, whole, point, fraction))
            == NormalizeDecimal(DecimalText(sign', whole', point', fraction'))
            <==> Signed(sign, Magnitude(whole, fraction)) * Pow10(|fraction'|)
                 == Signed(sign', Magnitude(whole', fraction')) * Pow10(|fraction|)
  {
    NormalPrice(sign, whole, point, fraction);
    NormalPrice(sign', whole', point', fraction');
    TextInjective(sign == Minus, whole, Tail(fraction), sign' == Minus, whole', Tail(fraction'));
    SameMagnitude(whole, fraction, whole', fraction');
    ZeroMagnitude(whole, fraction);
    SignsAgree(sign, Magnitude(whole, fraction), sign', Magnitude(whole', fraction'), Pow10(|fraction'|), Pow10(|fraction|));
  }
}
