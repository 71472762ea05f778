/**
 * Duration strings such as `keepalive 1m`: a decimal number of units,
 * where the unit is `s`, `m`, `h` or `d`, or no unit for plain seconds.
 */
module Duration {
  import opened Results

  predicate IsDigit(c: char) { '0' <= c <= '9' }

  predicate IsDigits(s: string) {
    |s| > 0 && forall i :: 0 <= i < |s| ==> IsDigit(s[i])
  }

  function DigitValue(c: char): (d: nat)
    requires IsDigit(c)
    ensures d < 10
  {
    (c as int - '0' as int) as nat
  }

  function DigitChar(d: nat): (c: char)
    requires d < 10
    ensures IsDigit(c) && DigitValue(c) == d
  {
    ('0' as int + d) as char
  }

  /** The number written by a string of decimal digits (most significant first). */
  function DecimalValue(s: string): nat
    requires forall i :: 0 <= i < |s| ==> IsDigit(s[i])
  {
    if |s| == 0 then 0 else DecimalValue(s[..|s| - 1]) * 10 + DigitValue(s[|s| - 1])
  }

  /** The shortest decimal spelling of `n`. */
  function Decimal(n: nat): (s: string)
    ensures IsDigits(s)
    ensures |s| > 1 ==> s[0] != '0'
  {
    if n < 10 then [DigitChar(n)] else Decimal(n / 10) + [DigitChar(n % 10)]
  }

  /** Reading back the spelling of `n` gives `n`. */
  lemma {:induction false} DecimalRoundTrip(n: nat)
    ensures DecimalValue(Decimal(n)) == n
  {
    if n >= 10 {
      var s := Decimal(n);
      assert s[..|s| - 1] == Decimal(n / 10);
      DecimalRoundTrip(n / 10);
    }
  }

  /** Seconds per unit letter; `None` for a letter that is not a unit. */
  function UnitSeconds(c: char): (r: Option<nat>)
    ensures r.Some? <==> c in {'s', 'm', 'h', 'd'}
    ensures r.Some? ==> r.value > 0
  {
    match c
    case 's' => Some(1)
    case 'm' => Some(60)
    case 'h' => Some(60 * 60)
    case 'd' => Some(24 * 60 * 60)
    case _ => None
  }

  /** A duration: digits with an optional trailing unit letter. */
  predicate WellFormed(s: string) {
    IsDigits(s) || (|s| > 1 && IsDigits(s[..|s| - 1]) && UnitSeconds(s[|s| - 1]).Some?)
  }

  /** The number of seconds a duration string stands for. */
  function ParseDuration(s: string): (r: Option<nat>)
    ensures r.Some? <==> WellFormed(s)
    ensures IsDigits(s) ==> r == Some(DecimalValue(s))
  {
    if IsDigits(s) then Some(DecimalValue(s))
    else if |s| > 1 && IsDigits(s[..|s| - 1]) && UnitSeconds(s[|s| - 1]).Some? then
      Some(DecimalValue(s[..|s| - 1]) * UnitSeconds(s[|s| - 1]).value)
    else None
  }

  /** `n` followed by a unit letter parses to `n` times that unit. */
  lemma ParseWithUnit(n: nat, unit: char)
    requires UnitSeconds(unit).Some?
    ensures ParseDuration(Decimal(n) + [unit]) == Some(n * UnitSeconds(unit).value)
  {
    var s := Decimal(n) + [unit];
    assert s[..|s| - 1] == Decimal(n);
    assert !IsDigits(s) by { assert !IsDigit(s[|s| - 1]); }
    DecimalRoundTrip(n);
  }

  /** `1m` is sixty seconds. */
  lemma OneMinute()
    ensures ParseDuration("1m") == Some(60)
  {
    assert Decimal(1) == "1";
    ParseWithUnit(1, 'm');
  }
}
