/** `str_to_timedelta`: the `--mod-delta` option's `<integer><unit>` strings,
    as a number of seconds. */
module Durations {
  import opened Wrappers

  /** Every failure below is one `ValueError` in Python; the reason tells which
      check raised it. */
  datatype DurationError = TooShort | NotAnInteger | UnknownUnit

  /** `string.whitespace`: what `int()` strips around its argument. */
  predicate IsSpace(c: char) {
    c == ' ' || c == '\t' || c == '\n' || c == '\r' || c as int == 11 || c as int == 12
  }

  function TrimLeft(s: string): string
    decreases |s|
  {
    if s != [] && IsSpace(s[0]) then TrimLeft(s[1..]) else s
  }

  function TrimRight(s: string): string
    decreases |s|
  {
    if s != [] && IsSpace(s[|s| - 1]) then TrimRight(s[..|s| - 1]) else s
  }

  predicate IsDigit(c: char) { '0' <= c <= '9' }

  predicate AllDigits(s: string) { forall i :: 0 <= i < |s| ==> IsDigit(s[i]) }

  /** The value of a string of decimal digits, most significant first. */
  function DigitsValue(s: string): nat
    requires AllDigits(s)
    decreases |s|
  {
    if s == [] then 0
    else DigitsValue(s[..|s| - 1]) * 10 + (s[|s| - 1] as int - '0' as int)
  }

  /** Python 2 `int(s)` on a byte string: surrounding whitespace, an optional
      sign and at least one decimal digit; `None` where `int` raises. */
  function ParseInt(s: string): (r: Option<int>)
  {
    var t := TrimRight(TrimLeft(s));
    var negative := t != [] && t[0] == '-';
    var digits := if t != [] && (t[0] == '-' || t[0] == '+') then t[1..] else t;
    if digits != [] && AllDigits(digits) then
      var v: int := DigitsValue(digits);
      Some(if negative then -v else v)
    else None
  }

  /** Decimal digits of a natural number, as `str(n)` writes them. */
  function NatToString(n: nat): (s: string)
    ensures s != [] && AllDigits(s)
    ensures DigitsValue(s) == n
    decreases n
  {
    var d := [('0' as int + n % 10) as char];
    if n < 10 then d
    else
      var s := NatToString(n / 10) + d;
      assert s[..|s| - 1] == NatToString(n / 10);
      s
  }

  /** `str(n)` for any integer. */
  function IntToString(n: int): string {
    if n < 0 then "-" + NatToString(-n) else NatToString(n)
  }

  /** `int(str(n)) == n`. */
  lemma IntRoundTrip(n: int)
    ensures ParseInt(IntToString(n)) == Some(n)
  {
    var s := IntToString(n);
    var digits := NatToString(if n < 0 then -n else n);
    assert !IsSpace(s[0]) && !IsSpace(s[|s| - 1]);
    assert TrimLeft(s) == s;
    assert TrimRight(s) == s;
    if n < 0 {
      assert s[1..] == digits;
    }
  }

  /** The units `str_to_timedelta` knows: seconds, minutes, hours, days. */
  predicate IsUnit(u: char) {
    u == 's' || u == 'm' || u == 'h' || u == 'd'
  }

  /** Seconds in one of each unit. */
  function UnitSeconds(u: char): int
    requires IsUnit(u)
  {
    match u
    case 's' => 1
    case 'm' => 60
    case 'h' => 3600
    case 'd' => 86400
  }

  /** `str_to_timedelta`, the duration in seconds. The integer prefix is parsed
      before the unit is looked at, so both a bad prefix and a bad unit fail. */
  function StrToTimedelta(s: string): (r: Result<int, DurationError>)
    ensures |s| <= 1 ==> r == Failure(TooShort)
    ensures |s| > 1 && !IsUnit(s[|s| - 1]) ==> r.Failure?
    ensures r.Success? <==> |s| > 1 && IsUnit(s[|s| - 1]) && ParseInt(s[..|s| - 1]).Some?
    ensures r.Success? ==> r.value == ParseInt(s[..|s| - 1]).value * UnitSeconds(s[|s| - 1])
  {
    if |s| <= 1 then Failure(TooShort)
    else
      match ParseInt(s[..|s| - 1])
      case None => Failure(NotAnInteger)
      case Some(v) =>
        var u := s[|s| - 1];
        if u == 's' then Success(v)
        else if u == 'm' then Success(v * 60)
        else if u == 'h' then Success(v * 3600)
        else if u == 'd' then Success(v * 86400)
        else Failure(UnknownUnit)
  }

  /** Any count followed by a known unit parses back to that many units. */
  lemma DurationRoundTrip(n: int, u: char)
    requires IsUnit(u)
    ensures StrToTimedelta(IntToString(n) + [u]) == Success(n * UnitSeconds(u))
  {
    var s := IntToString(n) + [u];
    assert s[..|s| - 1] == IntToString(n);
    IntRoundTrip(n);
  }

  /** "3d" is three days; "x" and "0" are too short; "3x" has no known unit. */
  lemma DurationExamples()
    ensures StrToTimedelta("3d") == Success(3 * 86400)
    ensures StrToTimedelta("x").Failure? && StrToTimedelta("0").Failure?
    ensures StrToTimedelta("3x") == Failure(UnknownUnit)
    ensures StrToTimedelta("xd") == Failure(NotAnInteger)
  {
    DurationRoundTrip(3, 'd');
    assert IntToString(3) == "3";
    var t := "3x";
    assert t[..1] == "3";
    assert ParseInt("3") == Some(3) by { IntRoundTrip(3); }
    var v := "xd";
    assert v[..1] == "x";
    assert TrimRight(TrimLeft("x")) == "x";
  }
}
