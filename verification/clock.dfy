/** Times of day as Go's `time.Parse` reads them. */
module Clock {
  import opened Text
  import opened Wrappers

  predicate DigitAt(s: string, i: nat) {
    i < |s| && IsDigit(s[i])
  }

  function TwoDigits(s: string, i: nat): nat
    requires DigitAt(s, i) && DigitAt(s, i + 1)
  {
    10 * (s[i] as int - '0' as int) + (s[i + 1] as int - '0' as int)
  }

  /** A colon and two digits at position i. */
  predicate ColonTwoDigits(s: string, i: nat) {
    i < |s| && s[i] == ':' && DigitAt(s, i + 1) && DigitAt(s, i + 2)
  }

  /** A fraction of a second is accepted although the layout has none. */
  predicate NothingButFraction(s: string) {
    s == [] || (|s| >= 2 && (s[0] == '.' || s[0] == ',') && AllDigits(s[1..]))
  }

  /** `time.Parse("15:04:05", value)`, as seconds since midnight: the hour may be a single digit. */
  function ParseClock(value: string): (r: Option<nat>)
    ensures r.Some? ==> r.value < 86400
  {
    var n := if DigitAt(value, 1) then 2 else 1;
    if DigitAt(value, 0) && ColonTwoDigits(value, n) && ColonTwoDigits(value, n + 3) && NothingButFraction(value[n + 6..]) then
      var hour := if n == 2 then TwoDigits(value, 0) else value[0] as int - '0' as int;
      var minute, second := TwoDigits(value, n + 1), TwoDigits(value, n + 4);
      if hour < 24 && minute < 60 && second < 60 then Some(hour * 3600 + minute * 60 + second) else None
    else None
  }

  function Padded(n: nat): string
    requires n < 60
  {
    [DigitChar(n / 10), DigitChar(n % 10)]
  }

  /** A printed time of day is read back, also with a fraction of a second or a one-digit hour. */
  lemma ParseClockFormat(hour: nat, minute: nat, second: nat, fraction: string)
    requires hour < 24 && minute < 60 && second < 60 && NothingButFraction(fraction)
    ensures ParseClock(Padded(hour) + ":" + Padded(minute) + ":" + Padded(second) + fraction)
         == Some(hour * 3600 + minute * 60 + second)
    ensures hour < 10 ==>
              ParseClock([DigitChar(hour)] + ":" + Padded(minute) + ":" + Padded(second) + fraction)
              == Some(hour * 3600 + minute * 60 + second)
  {
    var rest := ":" + Padded(minute) + ":" + Padded(second) + fraction;
    var long := Padded(hour) + ":" + Padded(minute) + ":" + Padded(second) + fraction;
    assert long == Padded(hour) + rest && long[8..] == fraction;
    if hour < 10 {
      var short := [DigitChar(hour)] + ":" + Padded(minute) + ":" + Padded(second) + fraction;
      assert short == [DigitChar(hour)] + rest && short[7..] == fraction && !IsDigit(short[1]);
    }
  }

  /** `time.Parse("15:04", value)`, as minutes since midnight. */
  function ParseMinute(value: string): (r: Option<nat>)
    ensures r.Some? ==> r.value < 1440
  {
    var n := if DigitAt(value, 1) then 2 else 1;
    if DigitAt(value, 0) && ColonTwoDigits(value, n) && |value| == n + 3 then
      var hour := if n == 2 then TwoDigits(value, 0) else value[0] as int - '0' as int;
      var minute := TwoDigits(value, n + 1);
      if hour < 24 && minute < 60 then Some(hour * 60 + minute) else None
    else None
  }

  lemma ParseMinuteFormat(hour: nat, minute: nat)
    requires hour < 24 && minute < 60
    ensures ParseMinute(Padded(hour) + ":" + Padded(minute)) == Some(hour * 60 + minute)
  {
  }
}
