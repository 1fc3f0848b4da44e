/**
 * The `mm:ss` doom-clock formatting of src/ui/hud.ts (`formatClock`), and a
 * parser for the same format that serves as its inverse. The input is an
 * exact real; JavaScript's exponent notation for numbers from 1e21 upwards is
 * not modelled.
 */
module HudClock {

  import opened Wrappers

  /** `Math.max(0, seconds)`. */
  function Clamp(seconds: real): (c: real)
    ensures 0.0 <= c
    ensures seconds >= 0.0 ==> c == seconds
  {
    if seconds < 0.0 then 0.0 else seconds
  }

  datatype ClockParts = ClockParts(minutes: nat, seconds: nat)

  /**
   * `Math.floor(clamped / 60)` and `Math.floor(clamped % 60)`; for a
   * non-negative operand JavaScript's `%` is `x - 60 * floor(x / 60)`.
   */
  function Split(seconds: real): (p: ClockParts)
    ensures p.seconds < 60
    ensures (p.minutes * 60 + p.seconds) as real <= Clamp(seconds)
    ensures Clamp(seconds) < (p.minutes * 60 + p.seconds + 1) as real
  {
    var c := Clamp(seconds);
    var m := (c / 60.0).Floor;
    var rest := c - 60.0 * m as real;
    assert 0.0 <= rest < 60.0;
    ClockParts(m, rest.Floor)
  }

  function DigitChar(d: nat): (c: char)
    requires d < 10
    ensures '0' <= c <= '9'
  {
    "0123456789"[d]
  }

  /** `n.toString()` for a natural number: its decimal digits, no leading zero. */
  function Digits(n: nat): (s: string)
    ensures 1 <= |s|
    ensures forall i :: 0 <= i < |s| ==> '0' <= s[i] <= '9'
  {
    if n < 10 then [DigitChar(n)] else Digits(n / 10) + [DigitChar(n % 10)]
  }

  /** `padStart(2, '0')`. */
  function PadTwo(s: string): (r: string)
    ensures |r| == if |s| < 2 then 2 else |s|
  {
    if |s| == 0 then "00" else if |s| == 1 then "0" + s else s
  }

  /** `formatClock`. */
  function FormatClock(seconds: real): string
  {
    var p := Split(seconds);
    PadTwo(Digits(p.minutes)) + ":" + PadTwo(Digits(p.seconds))
  }

  /** The value of a string of decimal digits. */
  function ParseDigits(s: string): nat
    requires forall i :: 0 <= i < |s| ==> '0' <= s[i] <= '9'
  {
    if |s| == 0 then 0 else ParseDigits(s[..|s| - 1]) * 10 + ((s[|s| - 1] as int) - ('0' as int))
  }

  /** The index of the first ':' in `s`, or `|s|` if there is none. */
  function ColonIndex(s: string): (i: nat)
    ensures i <= |s|
    ensures forall j :: 0 <= j < i ==> s[j] != ':'
    ensures i < |s| ==> s[i] == ':'
  {
    if |s| == 0 then 0 else if s[0] == ':' then 0 else 1 + ColonIndex(s[1..])
  }

  predicate IsDigits(s: string)
  {
    forall i :: 0 <= i < |s| ==> '0' <= s[i] <= '9'
  }

  /** Reads a `mm:ss` string back into its two parts. */
  function ParseClock(s: string): Option<ClockParts>
  {
    var i := ColonIndex(s);
    if i == |s| then None
    else if IsDigits(s[..i]) && IsDigits(s[i + 1..]) then Some(ClockParts(ParseDigits(s[..i]), ParseDigits(s[i + 1..])))
    else None
  }

  lemma DigitCharValue(d: nat)
    requires d < 10
    ensures (DigitChar(d) as int) - ('0' as int) == d
  {
  }

  /** Reading the decimal digits of `n` gives `n` back. */
  lemma {:induction false} ParseDigitsInvertsDigits(n: nat)
    ensures ParseDigits(Digits(n)) == n
  {
    DigitCharValue(n % 10);
    if n >= 10 {
      var s := Digits(n);
      assert s[..|s| - 1] == Digits(n / 10);
      ParseDigitsInvertsDigits(n / 10);
    } else {
      assert Digits(n)[..0] == [];
    }
  }

  /** A leading zero does not change the value of a digit string. */
  lemma {:induction false} LeadingZeroIgnored(s: string)
    requires IsDigits(s)
    ensures IsDigits("0" + s)
    ensures ParseDigits("0" + s) == ParseDigits(s)
    decreases |s|
  {
    if |s| > 0 {
      var t := "0" + s;
      assert t[..|t| - 1] == "0" + s[..|s| - 1];
      LeadingZeroIgnored(s[..|s| - 1]);
    } else {
      assert ("0" + s)[..0] == [];
    }
  }

  /** Padding to two places keeps the value of the digits. */
  lemma PadTwoKeepsValue(s: string)
    requires IsDigits(s) && |s| >= 1
    ensures IsDigits(PadTwo(s))
    ensures ParseDigits(PadTwo(s)) == ParseDigits(s)
  {
    if |s| == 1 {
      LeadingZeroIgnored(s);
    }
  }

  /** Decimal digit strings have at most two characters exactly below 100. */
  lemma {:induction false} DigitsLengthAtMostTwo(n: nat)
    ensures |Digits(n)| <= 2 <==> n < 100
  {
    if n >= 10 {
      DigitsLengthAtMostTwo(n / 10);
    }
  }

  /** `parseClock` undoes `formatClock`: the text holds exactly the minutes and seconds of `Split`. */
  lemma FormatClockRoundTrip(seconds: real)
    ensures ParseClock(FormatClock(seconds)) == Some(Split(seconds))
  {
    var p := Split(seconds);
    var a, b := PadTwo(Digits(p.minutes)), PadTwo(Digits(p.seconds));
    var s := a + ":" + b;
    PadTwoKeepsValue(Digits(p.minutes));
    PadTwoKeepsValue(Digits(p.seconds));
    ParseDigitsInvertsDigits(p.minutes);
    ParseDigitsInvertsDigits(p.seconds);
    assert s[..|a|] == a;
    assert s[|a| + 1..] == b;
    assert ColonIndex(s) == |a| by {
      ColonIndexOfJoin(a, b);
    }
  }

  lemma {:induction false} ColonIndexOfJoin(a: string, b: string)
    requires IsDigits(a)
    ensures ColonIndex(a + ":" + b) == |a|
    decreases |a|
  {
    if |a| > 0 {
      assert (a + ":" + b)[1..] == a[1..] + ":" + b;
      ColonIndexOfJoin(a[1..], b);
    }
  }

  /** The text has exactly five characters precisely when the clamped time is below 6000 seconds. */
  lemma FormatClockLength(seconds: real)
    ensures |FormatClock(seconds)| == 5 <==> Clamp(seconds) < 6000.0
  {
    var p := Split(seconds);
    DigitsLengthAtMostTwo(p.minutes);
    DigitsLengthAtMostTwo(p.seconds);
  }

  /** A negative time shows as `00:00`. */
  lemma NegativeShowsZero(seconds: real)
    requires seconds < 0.0
    ensures FormatClock(seconds) == "00:00"
  {
    var p := Split(seconds);
    assert p == ClockParts(0, 0);
  }
}
