/** `formatTime` of the conversation page: a time in seconds shown as
    `minutes:seconds`, with the seconds padded to two digits. */
module TimeFormat {
  import opened Wrappers
  import opened Strings

  function DigitChar(d: int): (c: char)
    requires 0 <= d < 10
    ensures IsDigit(c)
  {
    (48 + d) as char
  }

  function DigitValue(c: char): (d: nat)
    requires IsDigit(c)
    ensures d < 10 && DigitChar(d) == c
  {
    (c as int) - 48
  }

  /** `n.toString()` for a non-negative integer: its decimal digits, with no
      leading zero. */
  function NatToString(n: nat): (s: string)
    ensures 1 <= |s| && AllDigits(s)
    ensures |s| > 1 ==> s[0] != '0'
    ensures |s| == 1 <==> n < 10
  {
    if n < 10 then [DigitChar(n)] else NatToString(n / 10) + [DigitChar(n % 10)]
  }

  /** The value of a string of decimal digits. */
  function ParseNat(s: string): nat
    requires AllDigits(s)
  {
    if |s| == 0 then 0 else 10 * ParseNat(s[..|s| - 1]) + DigitValue(s[|s| - 1])
  }

  /** Reading back the digits `NatToString` writes gives the number. */
  lemma {:induction false} ParseNatToString(n: nat)
    ensures ParseNat(NatToString(n)) == n
  {
    var s := NatToString(n);
    if n >= 10 {
      ParseNatToString(n / 10);
      assert s[..|s| - 1] == NatToString(n / 10);
    }
  }

  /** `i.toString()` for an integer: a minus sign before the digits of a
      negative one. */
  function IntToString(i: int): (s: string)
    ensures 1 <= |s|
    ensures s[0] == '-' <==> i < 0
    ensures AllDigits(if i < 0 then s[1..] else s)
  {
    if i < 0 then "-" + NatToString(-i) else NatToString(i)
  }

  /** The value of an optional minus sign followed by decimal digits. */
  function ParseInt(s: string): int
    requires 1 <= |s| && AllDigits(if s[0] == '-' then s[1..] else s)
  {
    if s[0] == '-' then -(ParseNat(s[1..]) as int) else ParseNat(s)
  }

  /** Reading back the text `IntToString` writes gives the integer. */
  lemma IntToStringRoundTrip(i: int)
    ensures ParseInt(IntToString(i)) == i
  {
    if i < 0 {
      ParseNatToString(-i);
      assert IntToString(i)[1..] == NatToString(-i);
    } else {
      ParseNatToString(i);
    }
  }

  /** `s.padStart(2, "0")`. */
  function PadStart2(s: string): (r: string)
    ensures |s| >= 2 ==> r == s
    ensures |s| < 2 ==> |r| == 2 && r[2 - |s|..] == s && forall i :: 0 <= i < 2 - |s| ==> r[i] == '0'
  {
    if |s| == 0 then "00" else if |s| == 1 then "0" + s else s
  }

  /** JavaScript's truncation toward zero of a real number: the integer
      with the sign of `x` whose magnitude is within one below `|x|`. */
  function Trunc(x: real): (n: int)
    ensures x >= 0.0 ==> 0 <= n && (n as real) <= x < (n as real) + 1.0
    ensures x < 0.0 ==> n <= 0 && (n as real) - 1.0 < x <= (n as real)
  {
    if x >= 0.0 then x.Floor else -((-x).Floor)
  }

  /** JavaScript's `x % y` on numbers: the remainder takes the sign of `x`. */
  function JsRem(x: real, y: real): real
    requires y != 0.0
  {
    x - y * (Trunc(x / y) as real)
  }

  /** `formatTime(time)`: `Math.floor(time / 60)`, a colon, and
      `Math.floor(time % 60)` padded to two characters. For a non-negative
      time that is `m:ss`, with `m` the whole minutes and `ss` the two digits
      of the remaining whole seconds, 00 to 59, so that `60 * m + ss` is the
      time rounded down. */
  function FormatTime(time: real): (text: string)
    ensures time >= 0.0 ==>
      var m, s := time.Floor / 60, time.Floor % 60;
      && 0 <= s <= 59
      && 60 * m + s == time.Floor
      && text == NatToString(m) + ":" + TwoDigits(s)
  {
    FloorDiv60(time);
    PadTwoDigits(time.Floor % 60);
    IntToString((time / 60.0).Floor) + ":" + PadStart2(IntToString(JsRem(time, 60.0).Floor))
  }

  /** Seconds 0..59 as two digit characters. */
  function TwoDigits(s: int): (r: string)
    requires 0 <= s < 60
  {
    [DigitChar(s / 10), DigitChar(s % 10)]
  }

  /** For a non-negative time, `Math.floor(t / 60)` and `Math.floor(t % 60)`
      are the quotient and remainder of the whole seconds by 60. */
  lemma FloorDiv60(t: real)
    ensures t >= 0.0 ==> (t / 60.0).Floor == t.Floor / 60
    ensures t >= 0.0 ==> JsRem(t, 60.0).Floor == t.Floor % 60
  {
    if t >= 0.0 {
      var f := t.Floor;
      var q := f / 60;
      assert 60 * q <= f < 60 * q + 60;
      assert (f as real) <= t < (f as real) + 1.0;
      assert (60 * q) as real <= t;
      assert (q as real) <= t / 60.0;
      assert t < (60 * q + 60) as real;
      assert t / 60.0 < (q + 1) as real;
      assert (t / 60.0).Floor == q;
      assert Trunc(t / 60.0) == q;
      var rem := t - 60.0 * (q as real);
      assert JsRem(t, 60.0) == rem;
      assert ((f - 60 * q) as real) <= rem < ((f - 60 * q) as real) + 1.0;
      assert rem.Floor == f - 60 * q;
    }
  }

  /** `padStart(2, "0")` of a seconds value 0..59 gives its two digits. */
  lemma PadTwoDigits(s: int)
    ensures 0 <= s < 60 ==> PadStart2(IntToString(s)) == TwoDigits(s)
  {
    if 10 <= s < 60 {
      assert NatToString(s) == NatToString(s / 10) + [DigitChar(s % 10)];
    }
  }

  /** Reads an `m:ss` text back to a number of seconds; `None` for any other
      shape. */
  function ParseClock(text: string): (r: Option<nat>)
    ensures r.Some? ==> exists m, s :: text == m + ":" + s
  {
    var parts := Split(text, ':');
    if |parts| == 2 && AllDigits(parts[0]) && |parts[0]| >= 1
       && |parts[1]| == 2 && AllDigits(parts[1]) && ParseNat(parts[1]) < 60
    then
      JoinSplit(text, ':');
      assert Join(parts, ':') == parts[0] + [':'] + parts[1];
      Some(60 * ParseNat(parts[0]) + ParseNat(parts[1]))
    else None
  }

  /** Reading back an `m:ss` text built from whole minutes and seconds. */
  lemma ParseClockOfParts(m: nat, s: int)
    requires 0 <= s < 60
    ensures ParseClock(NatToString(m) + ":" + TwoDigits(s)) == Some(60 * m + s)
  {
    var parts := [NatToString(m), TwoDigits(s)];
    assert Join(parts, ':') == NatToString(m) + ":" + TwoDigits(s);
    SplitJoin(parts, ':');
    ParseNatToString(m);
    assert ParseNat(TwoDigits(s)) == s by {
      var tens := [DigitChar(s / 10)];
      assert TwoDigits(s)[..1] == tens;
      assert tens[..0] == [];
      assert ParseNat(tens) == DigitValue(DigitChar(s / 10)) == s / 10;
      assert DigitValue(DigitChar(s % 10)) == s % 10;
    }
  }

  /** Formatting a non-negative time and reading it back gives the time
      rounded down to whole seconds: nothing but the fraction is lost. */
  lemma ParseClockFormatTime(t: real)
    requires t >= 0.0
    ensures ParseClock(FormatTime(t)) == Some(t.Floor)
  {
    ParseClockOfParts(t.Floor / 60, t.Floor % 60);
  }
}
