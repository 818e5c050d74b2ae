/**
  `formatTime(s)`: a playback position in seconds rendered as `m:ss`.

  The script computes `Math.floor(s / 60)` for the minutes and
  `Math.floor(s % 60)` for the seconds, prints the minutes as a decimal
  number and left-pads the seconds with `0` to two characters. Positions are
  exact non-negative reals here. `ParseClock` reads such a string back and is
  the inverse used to show that nothing is lost down to whole seconds.
 */
module TimeFormat {
  import opened Wrappers

  predicate IsDigit(c: char) {
    '0' <= c <= '9'
  }

  function DigitChar(d: nat): (c: char)
    requires d < 10
    ensures IsDigit(c)
  {
    ('0' as int + d) as char
  }

  function DigitValue(c: char): (d: nat)
    requires IsDigit(c)
    ensures d < 10 && DigitChar(d) == c
  {
    c as int - '0' as int
  }

  /** `n.toString()` for a non-negative whole number: decimal digits, no leading zero. */
  function Decimal(n: nat): (r: string)
    decreases n
    ensures |r| >= 1
    ensures forall i :: 0 <= i < |r| ==> IsDigit(r[i])
    ensures n > 0 ==> r[0] != '0'
    ensures n < 10 <==> |r| == 1
    ensures n < 100 ==> |r| <= 2
  {
    if n < 10 then [DigitChar(n)] else Decimal(n / 10) + [DigitChar(n % 10)]
  }

  /** `padStart(2, '0')`. */
  function PadTwo(s: string): (r: string)
    ensures |s| <= 2 ==> |r| == 2
    ensures |s| >= 2 ==> r == s
    ensures |r| >= |s| && r[|r| - |s|..] == s
    ensures forall i :: 0 <= i < |r| - |s| ==> r[i] == '0'
  {
    if |s| == 0 then "00"
    else if |s| == 1 then "0" + s
    else s
  }

  /** `Math.floor(s / 60)`. */
  function Minutes(s: real): (m: nat)
    requires s >= 0.0
    ensures m as real * 60.0 <= s < m as real * 60.0 + 60.0
  {
    (s / 60.0).Floor
  }

  /** `Math.floor(s % 60)`; for `s >= 0` the remainder is `s - 60 * floor(s / 60)`. */
  function Seconds(s: real): (sec: int)
    requires s >= 0.0
    ensures sec as real <= s - 60.0 * Minutes(s) as real < sec as real + 1.0
  {
    (s - 60.0 * Minutes(s) as real).Floor
  }

  /** The two fields split the whole seconds of `s`, with the seconds field in 0..59. */
  lemma ClockFields(s: real)
    requires s >= 0.0
    ensures 0 <= Seconds(s) < 60
    ensures Minutes(s) * 60 + Seconds(s) == s.Floor
  {
    var m := Minutes(s);
    var rest := s - 60.0 * m as real;
    assert m as real <= s / 60.0 < m as real + 1.0;
    assert 0.0 <= rest < 60.0;
    var k := rest.Floor;
    assert k as real <= rest < k as real + 1.0;
    assert (m * 60 + k) as real <= s < (m * 60 + k) as real + 1.0;
  }

  /** `formatTime(s)` for `s >= 0`. */
  function FormatTime(s: real): (r: string)
    requires s >= 0.0
    ensures |r| >= 4 && r[|r| - 3] == ':'
    ensures r[..|r| - 3] == Decimal(Minutes(s))
    ensures r[|r| - 2..] == PadTwo(Decimal(Seconds(s)))
  {
    ClockFields(s);
    var sec: nat := Seconds(s);
    var mm := Decimal(Minutes(s));
    var ss := PadTwo(Decimal(sec));
    assert |ss| == 2;
    var r := mm + ":" + ss;
    assert r[..|r| - 3] == mm && r[|r| - 2..] == ss;
    r
  }

  /** Value of a non-empty string of decimal digits (leading zeros allowed). */
  function DigitsValue(s: string): nat
    requires forall i :: 0 <= i < |s| ==> IsDigit(s[i])
    decreases |s|
  {
    if |s| == 0 then 0 else DigitsValue(s[..|s| - 1]) * 10 + DigitValue(s[|s| - 1])
  }

  function ParseDigits(s: string): (r: Option<nat>)
    ensures r.Some? ==> |s| >= 1 && forall i :: 0 <= i < |s| ==> IsDigit(s[i])
  {
    if |s| >= 1 && forall i :: 0 <= i < |s| ==> IsDigit(s[i]) then Some(DigitsValue(s)) else None
  }

  /** Reads `m:ss` back as a number of whole seconds; `None` for any other shape. */
  function ParseClock(r: string): (total: Option<nat>)
    ensures total.Some? ==> |r| >= 4 && r[|r| - 3] == ':'
  {
    if |r| < 4 || r[|r| - 3] != ':' then None
    else match (ParseDigits(r[..|r| - 3]), ParseDigits(r[|r| - 2..]))
      case (Some(m), Some(ss)) => if ss < 60 then Some(m * 60 + ss) else None
      case _ => None
  }

  lemma {:induction false} DecimalRoundTrip(n: nat)
    ensures ParseDigits(Decimal(n)) == Some(n)
  {
    var r := Decimal(n);
    if n >= 10 {
      DecimalRoundTrip(n / 10);
      assert r[..|r| - 1] == Decimal(n / 10);
      assert DigitsValue(r) == (n / 10) * 10 + n % 10;
    }
  }

  /** Padding a seconds field below 60 keeps its value. */
  lemma PaddedSecondsRoundTrip(sec: nat)
    requires sec < 60
    ensures |PadTwo(Decimal(sec))| == 2
    ensures ParseDigits(PadTwo(Decimal(sec))) == Some(sec)
  {
    var d := Decimal(sec);
    DecimalRoundTrip(sec);
    if sec < 10 {
      var p := PadTwo(d);
      assert p == ['0', DigitChar(sec)];
      assert p[..1] == ['0'];
      assert DigitsValue(p) == DigitsValue(['0']) * 10 + sec;
    } else {
      DecimalRoundTrip(sec / 10);
    }
  }

  /** Reading the formatted text back gives the whole seconds of the position. */
  lemma FormatTimeRoundTrip(s: real)
    requires s >= 0.0
    ensures ParseClock(FormatTime(s)) == Some(s.Floor)
  {
    ClockFields(s);
    var r := FormatTime(s);
    DecimalRoundTrip(Minutes(s));
    PaddedSecondsRoundTrip(Seconds(s));
  }

  /** A whole number of seconds is recovered exactly. */
  lemma FormatWholeSeconds(n: nat)
    ensures ParseClock(FormatTime(n as real)) == Some(n)
  {
    FormatTimeRoundTrip(n as real);
  }

  lemma FormatZero()
    ensures FormatTime(0.0) == "0:00"
  {
    assert Minutes(0.0) == 0 && Seconds(0.0) == 0;
    assert Decimal(0) == "0";
  }

  lemma FormatFractional()
    ensures FormatTime(75.5) == "1:15"
  {
    assert Minutes(75.5) == 1;
    assert Seconds(75.5) == 15;
    assert Decimal(1) == "1";
    assert Decimal(15) == Decimal(1) + "5";
  }

  lemma FormatTenMinutes()
    ensures FormatTime(600.0) == "10:00"
  {
    assert Minutes(600.0) == 10;
    assert Seconds(600.0) == 0;
    assert Decimal(10) == Decimal(1) + "0";
  }
}
